/** The records the dashboard, the relay and the categorisation endpoint exchange. */
module Types {

  import opened Wrappers

  /** A browser tab as the extension reports it; `id` is the string form of the native tab id. */
  datatype Tab = Tab(id: string, url: string, title: string, favIconUrl: Option<string>, groupId: Option<string>)

  /** A group built by the dashboard; `tabIds` lists member tab ids in order. */
  datatype TabGroup = TabGroup(id: string, name: string, description: string, color: string, tabIds: seq<string>)

  /** One group proposed by the language model; `tabIndices` are offsets into the submitted tab list. */
  datatype GroupProposal = GroupProposal(name: string, description: string, color: string, tabIndices: seq<int>)

  /** The categorisation result: the parsed JSON object `{groups: [...]}`. */
  datatype AIResult = AIResult(groups: seq<GroupProposal>)

  /** The fallback palette for groups that come without a colour. */
  const Colors: seq<string> := ["#ef4444", "#f59e0b", "#10b981", "#3b82f6", "#8b5cf6", "#ec4899", "#6366f1"]
}

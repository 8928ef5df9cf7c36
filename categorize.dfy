/**
 * The categorisation endpoint: request checks, API-key selection, the tab-list
 * prompt text, and the key-rotation loop that streams NDJSON status frames.
 * The language-model call is an oracle: `gemini(j)` is the outcome of the j-th
 * attempt, either a parsed result or a thrown error with its optional message.
 */
module Categorize {

  import opened Wrappers
  import opened Strings
  import opened Types
  import Seqs

  /**
   * The request body. `Unreadable` is every body on which reading and
   * destructuring `{ tabs }` throws (unparsable JSON, or JSON `null`), with that
   * error's message; `NoTabArray` is a body that gets past the destructuring but
   * whose `tabs` is not an array; `Tabs` carries the submitted tabs.
   */
  datatype Body = Unreadable(error: string) | NoTabArray(error: string) | Tabs(tabs: seq<Tab>)

  /** The parts of the HTTP request the handler reads; `apiKeyHeader` is `X-Gemini-API-Key`. */
  datatype Request = Request(httpMethod: string, apiKeyHeader: Option<string>, body: Body)

  /** An opaque grounding citation passed through on success. */
  type GroundingChunk = string

  /** The `status` field of a stream frame. */
  datatype Status = AnalyzingStatus | RetryStatus | SuccessStatus | ErrorStatus

  /** One NDJSON line of the response stream, one constructor per `status` value. */
  datatype Frame =
    | Analyzing(message: string)
    | Retry(message: string)
    | Success(data: AIResult, sources: seq<GroundingChunk>)
    | Error(message: string)
  {
    /** The frame's `status` field. */
    function Status(): Status
    {
      match this
      case Analyzing(_) => AnalyzingStatus
      case Retry(_) => RetryStatus
      case Success(_, _) => SuccessStatus
      case Error(_) => ErrorStatus
    }

    predicate IsTerminal()
    {
      Success? || Error?
    }
  }

  /** What the handler returns: a plain-text error, a JSON `{error}` body, or an NDJSON stream. */
  datatype Response =
    | PlainText(status: nat, text: string)
    | JsonError(status: nat, error: string)
    | Ndjson(frames: seq<Frame>)

  /** The outcome of one model call: the parsed result with its citations, or a thrown error. */
  datatype Outcome = Generated(result: AIResult, sources: seq<GroundingChunk>) | Threw(message: Option<string>)

  /** One model call: the key it used and the tab list it sent. */
  datatype Call = Call(apiKey: string, tabList: string)

  const NoKeyMessage: string := "No API key available. Please connect your own key or configure the server."
  const PersonalKeyMessage: string := "Using your personal API key..."
  const RotatingMessage: string := "Quota exhausted. Rotating keys..."
  const FallbackErrorMessage: string := "Failed to process request."

  // ---------------------------------------------------------------- key selection

  /** `process.env.API_KEY || ""`. */
  function RawKeys(apiKeyEnv: Option<string>): string
  {
    if apiKeyEnv.Some? then apiKeyEnv.value else ""
  }

  function TrimEach(pieces: seq<string>): (r: seq<string>)
    ensures |r| == |pieces| && forall i :: 0 <= i < |pieces| ==> r[i] == Trim(pieces[i])
  {
    seq(|pieces|, i requires 0 <= i < |pieces| => Trim(pieces[i]))
  }

  predicate NonEmpty(k: string)
  {
    |k| > 0
  }

  /**
   * The environment key list: the comma-separated pieces, trimmed, with empty
   * pieces dropped. Every key is non-empty, trimmed and comma-free; the keys are
   * the trimmed pieces in their order with exactly the empty ones deleted.
   */
  function ParseEnvKeys(raw: string): (keys: seq<string>)
    ensures |keys| <= |Split(raw, ',')|
    ensures forall k :: k in keys ==> k != [] && IsTrimmed(k) && ',' !in k
    ensures forall p :: p in Split(raw, ',') && Trim(p) != [] ==> Trim(p) in keys
    ensures Seqs.IsSubsequence(keys, TrimEach(Split(raw, ',')))
    ensures forall k :: multiset(keys)[k] == if k != [] then multiset(TrimEach(Split(raw, ',')))[k] else 0
  {
    var pieces := Split(raw, ',');
    KeysWellFormed(pieces);
    KeysCoverPieces(pieces);
    KeysCounts(TrimEach(pieces));
    Seqs.Filter(TrimEach(pieces), NonEmpty)
  }

  /** Keys drawn from comma-free pieces are non-empty, trimmed and comma-free. */
  lemma KeysWellFormed(pieces: seq<string>)
    requires forall p :: p in pieces ==> ',' !in p
    ensures forall k :: k in Seqs.Filter(TrimEach(pieces), NonEmpty) ==> k != [] && IsTrimmed(k) && ',' !in k
  {
    var trimmed := TrimEach(pieces);
    forall k | k in Seqs.Filter(trimmed, NonEmpty) ensures k != [] && IsTrimmed(k) && ',' !in k {
      var i :| 0 <= i < |trimmed| && trimmed[i] == k;
      assert pieces[i] in pieces;
    }
  }

  /** Every piece that is not blank contributes its trimmed form. */
  lemma KeysCoverPieces(pieces: seq<string>)
    ensures forall p :: p in pieces && Trim(p) != [] ==> Trim(p) in Seqs.Filter(TrimEach(pieces), NonEmpty)
  {
    var trimmed := TrimEach(pieces);
    forall p | p in pieces && Trim(p) != [] ensures Trim(p) in Seqs.Filter(trimmed, NonEmpty) {
      var i :| 0 <= i < |pieces| && pieces[i] == p;
      assert trimmed[i] == Trim(p);
    }
  }

  /** Dropping the empty strings keeps every copy of each non-empty one. */
  lemma KeysCounts(trimmed: seq<string>)
    ensures forall k :: multiset(Seqs.Filter(trimmed, NonEmpty))[k] == if k != [] then multiset(trimmed)[k] else 0
  {
    forall k ensures multiset(Seqs.Filter(trimmed, NonEmpty))[k] == if k != [] then multiset(trimmed)[k] else 0 {
      Seqs.FilterMultiset(trimmed, NonEmpty, k);
    }
  }

  /** Joining well-formed keys with commas and parsing the result gives the same keys back. */
  lemma ParseJoinedKeys(keys: seq<string>)
    requires forall k :: k in keys ==> k != [] && IsTrimmed(k) && ',' !in k
    ensures ParseEnvKeys(Join(keys, ",")) == keys
  {
    if keys == [] {
      assert Split("", ',') == [""];
      assert TrimEach([""]) == [""];
    } else {
      SplitJoin(keys, ',');
      var trimmed := TrimEach(keys);
      forall i | 0 <= i < |keys| ensures trimmed[i] == keys[i] {
        TrimOfTrimmed(keys[i]);
      }
      assert trimmed == keys;
      Seqs.FilterAll(keys, NonEmpty);
    }
  }

  /** A header key counts only when it is a non-empty string (JavaScript truthiness). */
  predicate HasPersonalKey(header: Option<string>)
  {
    header.Some? && header.value != []
  }

  /**
   * The keys to try: the caller's header key alone when given, otherwise the
   * environment list. Every key to try is non-empty.
   */
  function KeysToTry(header: Option<string>, apiKeyEnv: Option<string>): (keys: seq<string>)
    ensures forall k :: k in keys ==> k != []
    ensures HasPersonalKey(header) ==> keys == [header.value]
    ensures !HasPersonalKey(header) ==> keys == ParseEnvKeys(RawKeys(apiKeyEnv))
  {
    if HasPersonalKey(header) then [header.value] else ParseEnvKeys(RawKeys(apiKeyEnv))
  }

  /** With a header key, the environment plays no part in which keys are tried. */
  lemma PersonalKeyIgnoresEnvironment(header: Option<string>, env1: Option<string>, env2: Option<string>)
    requires HasPersonalKey(header)
    ensures KeysToTry(header, env1) == KeysToTry(header, env2) == [header.value]
  {
  }

  // ---------------------------------------------------------------- tab-list text

  /** Line `i` of the prompt's tab list: `[i] Title: <title> | URL: <url>`. */
  function TabLine(index: nat, t: Tab): string
  {
    "[" + NatToString(index) + "] Title: " + t.title + " | URL: " + t.url
  }

  function TabLines(tabs: seq<Tab>): (lines: seq<string>)
    ensures |lines| == |tabs| && forall i :: 0 <= i < |tabs| ==> lines[i] == TabLine(i, tabs[i])
  {
    seq(|tabs|, i requires 0 <= i < |tabs| => TabLine(i, tabs[i]))
  }

  /** The tab list sent to the model: the tab lines joined with newlines. */
  function FormatTabList(tabs: seq<Tab>): string
  {
    Join(TabLines(tabs), "\n")
  }

  lemma TabLineOneLine(index: nat, t: Tab)
    requires '\n' !in t.title && '\n' !in t.url
    ensures '\n' !in TabLine(index, t)
  {
    var digits := NatToString(index);
    assert forall k :: 0 <= k < |digits| ==> digits[k] != '\n';
  }

  /**
   * When no title or URL holds a newline, the tab list has exactly one line per
   * tab, line `i` describing tab `i`.
   */
  lemma {:induction false} FormatTabListLines(tabs: seq<Tab>)
    requires |tabs| >= 1
    requires forall t :: t in tabs ==> '\n' !in t.title && '\n' !in t.url
    ensures Split(FormatTabList(tabs), '\n') == TabLines(tabs)
  {
    var lines := TabLines(tabs);
    forall l | l in lines ensures '\n' !in l {
      var i :| 0 <= i < |lines| && lines[i] == l;
      TabLineOneLine(i, tabs[i]);
    }
    SplitJoin(lines, '\n');
  }

  // ---------------------------------------------------------------- rotation policy

  /** `error.message?.includes('429') || error.message?.includes('Quota')`. */
  predicate IsRateLimit(message: Option<string>)
  {
    message.Some? && (Contains(message.value, "429") || Contains(message.value, "Quota"))
  }

  /** A failed attempt that lets the loop move to the next key (when one remains). */
  predicate Rotates(o: Outcome, personal: bool)
  {
    o.Threw? && IsRateLimit(o.message) && !personal
  }

  /** `lastError?.message || 'Failed to process request.'`. */
  function ErrorText(message: Option<string>): (text: string)
    ensures text != []
    ensures message.Some? && message.value != [] ==> text == message.value
    ensures !(message.Some? && message.value != []) ==> text == FallbackErrorMessage
  {
    if message.Some? && message.value != [] then message.value else FallbackErrorMessage
  }

  /** The frame that ends the stream after the last attempt. */
  function TerminalFrame(o: Outcome): (f: Frame)
    ensures f.IsTerminal()
    ensures f.Success? <==> o.Generated?
    ensures f.Success? ==> f.data == o.result && f.sources == o.sources
    ensures f.Error? ==> f.message == ErrorText(o.message)
  {
    match o
    case Generated(result, sources) => Success(result, sources)
    case Threw(message) => Error(ErrorText(message))
  }

  /** The `analyzing` message for the attempt with zero-based number `attempt` out of `total`. */
  function AnalyzingMessage(personal: bool, attempt: nat, total: nat): string
  {
    if personal then PersonalKeyMessage
    else "Using system key (Rotation " + NatToString(attempt + 1) + "/" + NatToString(total) + ")..."
  }

  /** The frames of `m` attempts that each ended in a rotation: `analyzing` then `retry`, per attempt. */
  function ProgressPrefix(personal: bool, m: nat, total: nat): (fs: seq<Frame>)
    ensures |fs| == 2 * m
  {
    if m == 0 then []
    else ProgressPrefix(personal, m - 1, total) + [Analyzing(AnalyzingMessage(personal, m - 1, total)), Retry(RotatingMessage)]
  }

  /** No frame of a progress prefix ends the stream. */
  lemma {:induction false} ProgressPrefixNotTerminal(personal: bool, m: nat, total: nat)
    ensures forall f :: f in ProgressPrefix(personal, m, total) ==> !f.IsTerminal()
  {
    if m > 0 {
      ProgressPrefixNotTerminal(personal, m - 1, total);
    }
  }

  /** Frame `k` of a progress prefix, by position: `analyzing` at even places, `retry` at odd ones. */
  function ProgressFrame(personal: bool, k: nat, total: nat): Frame
  {
    if k % 2 == 0 then Analyzing(AnalyzingMessage(personal, k / 2, total)) else Retry(RotatingMessage)
  }

  /** The recursive and the positional description of the progress frames agree. */
  lemma {:induction false} ProgressPrefixFrames(personal: bool, m: nat, total: nat)
    ensures forall k :: 0 <= k < 2 * m ==> ProgressPrefix(personal, m, total)[k] == ProgressFrame(personal, k, total)
  {
    if m > 0 {
      ProgressPrefixFrames(personal, m - 1, total);
      var prev := ProgressPrefix(personal, m - 1, total);
      var fs := ProgressPrefix(personal, m, total);
      forall k | 0 <= k < 2 * m ensures fs[k] == ProgressFrame(personal, k, total) {
        if k < 2 * m - 2 {
          assert fs[k] == prev[k];
        } else if k == 2 * m - 2 {
          assert k / 2 == m - 1 && k % 2 == 0;
        } else {
          assert k % 2 == 1;
        }
      }
    }
  }

  /**
   * The frames and calls of one run of the rotation loop over `keys`:
   * n = |calls| attempts, 1 <= n <= |keys|, attempt j using `keys[j]`; every
   * attempt but the last failed with a rate-limit error and no personal key;
   * the loop stopped because keys ran out or the last outcome does not rotate.
   * The stream is `analyzing`, `retry`, ..., `analyzing`, then one terminal frame.
   */
  predicate RotationTrace(keys: seq<string>, personal: bool, tabList: string, gemini: nat -> Outcome,
                          frames: seq<Frame>, calls: seq<Call>)
  {
    var n := |calls|;
    && 1 <= n <= |keys|
    && (forall j :: 0 <= j < n ==> calls[j] == Call(keys[j], tabList))
    && (forall j :: 0 <= j < n - 1 ==> Rotates(gemini(j), personal))
    && (n == |keys| || !Rotates(gemini(n - 1), personal))
    && frames == ProgressPrefix(personal, n - 1, |keys|)
                 + [Analyzing(AnalyzingMessage(personal, n - 1, |keys|)), TerminalFrame(gemini(n - 1))]
  }

  /**
   * The stream's `start` body: try the keys in order, announce each attempt,
   * stop at the first success, rotate on a rate-limit error while no personal
   * key was given and keys remain, and otherwise end with an `error` frame.
   */
  method RunRotation(keys: seq<string>, personal: bool, tabList: string, gemini: nat -> Outcome)
    returns (frames: seq<Frame>, calls: seq<Call>)
    requires |keys| > 0
    ensures RotationTrace(keys, personal, tabList, gemini, frames, calls)
  {
    frames, calls := [], [];
    var lastError: Option<string> := None;
    var i := 0;
    while i < |keys|
      invariant 0 <= i < |keys|
      invariant |calls| == i
      invariant forall j :: 0 <= j < i ==> calls[j] == Call(keys[j], tabList)
      invariant forall j :: 0 <= j < i ==> Rotates(gemini(j), personal)
      invariant frames == ProgressPrefix(personal, i, |keys|)
      decreases |keys| - i
    {
      var announce := Analyzing(AnalyzingMessage(personal, i, |keys|));
      calls := calls + [Call(keys[i], tabList)];
      frames := frames + [announce];
      match gemini(i)
      case Generated(result, sources) =>
        assert frames + [Success(result, sources)] == ProgressPrefix(personal, i, |keys|) + [announce, Success(result, sources)];
        frames := frames + [Success(result, sources)];
        return;
      case Threw(message) =>
        lastError := message;
        if IsRateLimit(message) && !personal && i < |keys| - 1 {
          assert frames + [Retry(RotatingMessage)] == ProgressPrefix(personal, i + 1, |keys|);
          frames := frames + [Retry(RotatingMessage)];
          i := i + 1;
        } else {
          break;
        }
    }
    assert frames + [Error(ErrorText(lastError))] == ProgressPrefix(personal, i, |keys|)
           + [Analyzing(AnalyzingMessage(personal, i, |keys|)), TerminalFrame(gemini(i))];
    frames := frames + [Error(ErrorText(lastError))];
  }

  // ---------------------------------------------------------------- the handler

  /**
   * The endpoint: 405 for anything but POST; 500 with the thrown error's message
   * for an unreadable body; 500 when there is no key to try; 500 when the body has no
   * tab array; otherwise an NDJSON stream produced by the rotation loop. Only
   * the streaming case calls the model.
   */
  method Handle(request: Request, apiKeyEnv: Option<string>, gemini: nat -> Outcome)
    returns (response: Response, calls: seq<Call>)
    ensures request.httpMethod != "POST" ==> response == PlainText(405, "Method Not Allowed")
    ensures request.httpMethod == "POST" && request.body.Unreadable? ==>
              response == JsonError(500, request.body.error)
    ensures request.httpMethod == "POST" && !request.body.Unreadable? && KeysToTry(request.apiKeyHeader, apiKeyEnv) == [] ==>
              response == JsonError(500, NoKeyMessage)
    ensures request.httpMethod == "POST" && request.body.NoTabArray? && KeysToTry(request.apiKeyHeader, apiKeyEnv) != [] ==>
              response == JsonError(500, request.body.error)
    ensures response.Ndjson? <==>
              request.httpMethod == "POST" && request.body.Tabs? && KeysToTry(request.apiKeyHeader, apiKeyEnv) != []
    ensures !response.Ndjson? ==> calls == []
    ensures response.Ndjson? ==>
              RotationTrace(KeysToTry(request.apiKeyHeader, apiKeyEnv), HasPersonalKey(request.apiKeyHeader),
                            FormatTabList(request.body.tabs), gemini, response.frames, calls)
  {
    calls := [];
    if request.httpMethod != "POST" {
      return PlainText(405, "Method Not Allowed"), calls;
    }
    if request.body.Unreadable? {
      return JsonError(500, request.body.error), calls;
    }
    var personal := HasPersonalKey(request.apiKeyHeader);
    var keysToTry := KeysToTry(request.apiKeyHeader, apiKeyEnv);
    if |keysToTry| == 0 {
      return JsonError(500, NoKeyMessage), calls;
    }
    if request.body.NoTabArray? {
      return JsonError(500, request.body.error), calls;
    }
    var tabList := FormatTabList(request.body.tabs);
    var frames;
    frames, calls := RunRotation(keysToTry, personal, tabList, gemini);
    response := Ndjson(frames);
  }

  // ---------------------------------------------------------------- stream properties

  /** The number of frames in `fs` whose `status` is `status`. */
  function Count(fs: seq<Frame>, status: Status): nat
  {
    if fs == [] then 0 else (if fs[0].Status() == status then 1 else 0) + Count(fs[1..], status)
  }

  lemma {:induction false} CountAppend(a: seq<Frame>, b: seq<Frame>, status: Status)
    ensures Count(a + b, status) == Count(a, status) + Count(b, status)
  {
    if a != [] {
      CountAppend(a[1..], b, status);
      assert (a + b)[0] == a[0];
      assert (a + b)[1..] == a[1..] + b;
    } else {
      assert a + b == b;
    }
  }

  /** Appending two frames adds the count of each of them. */
  lemma CountTwoMore(prefix: seq<Frame>, f: Frame, g: Frame, status: Status)
    ensures Count(prefix + [f, g], status)
            == Count(prefix, status) + (if f.Status() == status then 1 else 0) + (if g.Status() == status then 1 else 0)
  {
    CountAppend(prefix, [f, g], status);
    assert [f, g][1..] == [g];
    assert [g][1..] == [];
    assert Count([g], status) == (if g.Status() == status then 1 else 0) + Count([], status);
    assert Count([f, g], status) == (if f.Status() == status then 1 else 0) + Count([g], status);
  }

  /** A progress prefix of `m` attempts holds `m` `analyzing` and `m` `retry` frames and nothing else. */
  lemma {:induction false} ProgressPrefixCounts(personal: bool, m: nat, total: nat)
    ensures Count(ProgressPrefix(personal, m, total), AnalyzingStatus) == m
    ensures Count(ProgressPrefix(personal, m, total), RetryStatus) == m
    ensures Count(ProgressPrefix(personal, m, total), SuccessStatus) == 0
    ensures Count(ProgressPrefix(personal, m, total), ErrorStatus) == 0
  {
    if m > 0 {
      ProgressPrefixCounts(personal, m - 1, total);
      var prev := ProgressPrefix(personal, m - 1, total);
      var f, g := Analyzing(AnalyzingMessage(personal, m - 1, total)), Retry(RotatingMessage);
      CountTwoMore(prev, f, g, AnalyzingStatus);
      CountTwoMore(prev, f, g, RetryStatus);
      CountTwoMore(prev, f, g, SuccessStatus);
      CountTwoMore(prev, f, g, ErrorStatus);
    }
  }

  /**
   * Every stream of the rotation loop holds one `analyzing` frame per attempt,
   * one `retry` frame fewer than attempts, and exactly one terminal frame.
   */
  lemma RotationFrameCounts(keys: seq<string>, personal: bool, tabList: string, gemini: nat -> Outcome,
                            frames: seq<Frame>, calls: seq<Call>)
    requires RotationTrace(keys, personal, tabList, gemini, frames, calls)
    ensures Count(frames, AnalyzingStatus) == |calls|
    ensures Count(frames, RetryStatus) == |calls| - 1
    ensures Count(frames, SuccessStatus) + Count(frames, ErrorStatus) == 1
  {
    var n := |calls|;
    var prefix := ProgressPrefix(personal, n - 1, |keys|);
    var f, g := Analyzing(AnalyzingMessage(personal, n - 1, |keys|)), TerminalFrame(gemini(n - 1));
    ProgressPrefixCounts(personal, n - 1, |keys|);
    CountTwoMore(prefix, f, g, AnalyzingStatus);
    CountTwoMore(prefix, f, g, RetryStatus);
    CountTwoMore(prefix, f, g, SuccessStatus);
    CountTwoMore(prefix, f, g, ErrorStatus);
  }

  /** The terminal frame of a rotation stream is its last frame and only there. */
  lemma RotationTerminalLast(keys: seq<string>, personal: bool, tabList: string, gemini: nat -> Outcome,
                             frames: seq<Frame>, calls: seq<Call>)
    requires RotationTrace(keys, personal, tabList, gemini, frames, calls)
    ensures frames[|frames| - 1].IsTerminal()
    ensures forall k :: 0 <= k < |frames| - 1 ==> !frames[k].IsTerminal()
  {
    var prefix := ProgressPrefix(personal, |calls| - 1, |keys|);
    ProgressPrefixNotTerminal(personal, |calls| - 1, |keys|);
    forall k | 0 <= k < |frames| - 1 ensures !frames[k].IsTerminal() {
      if k < |prefix| {
        assert frames[k] == prefix[k] && prefix[k] in prefix;
      }
    }
  }

  /** The rotation trace determines the stream and the calls: it is a complete specification. */
  lemma RotationTraceUnique(keys: seq<string>, personal: bool, tabList: string, gemini: nat -> Outcome,
                            frames1: seq<Frame>, calls1: seq<Call>, frames2: seq<Frame>, calls2: seq<Call>)
    requires RotationTrace(keys, personal, tabList, gemini, frames1, calls1)
    requires RotationTrace(keys, personal, tabList, gemini, frames2, calls2)
    ensures frames1 == frames2 && calls1 == calls2
  {
    var n1, n2 := |calls1|, |calls2|;
    assert !Rotates(gemini(n1 - 1), personal) ==> n1 >= n2;
    assert !Rotates(gemini(n2 - 1), personal) ==> n2 >= n1;
    assert n1 == n2;
  }

  /**
   * With K keys, no personal key, and rate-limit failures on the first K-1 keys,
   * every key is tried: K `analyzing` frames and K-1 `retry` frames.
   */
  lemma QuotaFailuresTryEveryKey(keys: seq<string>, tabList: string, gemini: nat -> Outcome,
                                 frames: seq<Frame>, calls: seq<Call>)
    requires RotationTrace(keys, false, tabList, gemini, frames, calls)
    requires forall j :: 0 <= j < |keys| - 1 ==> Rotates(gemini(j), false)
    ensures |calls| == |keys|
    ensures Count(frames, AnalyzingStatus) == |keys| && Count(frames, RetryStatus) == |keys| - 1
  {
    RotationReachesLastKey(|keys|, false, gemini, |calls|);
    RotationFrameCounts(keys, false, tabList, gemini, frames, calls);
  }

  /**
   * When, in addition, the K-th key succeeds, the stream ends with a `success`
   * frame carrying that attempt's result and sources.
   */
  lemma QuotaFailuresThenSuccess(keys: seq<string>, tabList: string, gemini: nat -> Outcome,
                                 frames: seq<Frame>, calls: seq<Call>)
    requires RotationTrace(keys, false, tabList, gemini, frames, calls)
    requires forall j :: 0 <= j < |keys| - 1 ==> Rotates(gemini(j), false)
    requires gemini(|keys| - 1).Generated?
    ensures frames[|frames| - 1] == Success(gemini(|keys| - 1).result, gemini(|keys| - 1).sources)
  {
    RotationReachesLastKey(|keys|, false, gemini, |calls|);
  }

  /**
   * The last frame reports the last attempt: `success` with its result and
   * sources when it produced one, otherwise `error` with its message or the fallback.
   */
  lemma RotationLastFrame(keys: seq<string>, personal: bool, tabList: string, gemini: nat -> Outcome,
                          frames: seq<Frame>, calls: seq<Call>)
    requires RotationTrace(keys, personal, tabList, gemini, frames, calls)
    ensures gemini(|calls| - 1).Generated? ==>
              frames[|frames| - 1] == Success(gemini(|calls| - 1).result, gemini(|calls| - 1).sources)
    ensures gemini(|calls| - 1).Threw? ==> frames[|frames| - 1] == Error(ErrorText(gemini(|calls| - 1).message))
  {
  }

  /** When every key but the last rotates, the loop stops only at the last key. */
  lemma RotationReachesLastKey(total: nat, personal: bool, gemini: nat -> Outcome, n: nat)
    requires 1 <= n <= total
    requires n == total || !Rotates(gemini(n - 1), personal)
    requires forall j :: 0 <= j < total - 1 ==> Rotates(gemini(j), personal)
    ensures n == total
  {
  }

  /** A first failure that is not a rate-limit error ends the stream at once, with its message. */
  lemma OtherFailureStopsAtOnce(keys: seq<string>, personal: bool, tabList: string, gemini: nat -> Outcome,
                                frames: seq<Frame>, calls: seq<Call>, message: string)
    requires RotationTrace(keys, personal, tabList, gemini, frames, calls)
    requires gemini(0) == Threw(Some(message)) && message != []
    requires !Contains(message, "429") && !Contains(message, "Quota")
    ensures calls == [Call(keys[0], tabList)]
    ensures frames == [Analyzing(AnalyzingMessage(personal, 0, |keys|)), Error(message)]
  {
    assert !Rotates(gemini(0), personal);
    assert |calls| == 1;
  }

  /** With a personal key there is exactly one attempt, whatever its outcome. */
  lemma PersonalKeySingleAttempt(keys: seq<string>, tabList: string, gemini: nat -> Outcome,
                                 frames: seq<Frame>, calls: seq<Call>)
    requires RotationTrace(keys, true, tabList, gemini, frames, calls)
    ensures |calls| == 1 && |frames| == 2
    ensures frames[1] == TerminalFrame(gemini(0))
  {
    assert |calls| > 1 ==> Rotates(gemini(0), true);
  }

  /** Attempt j is made only after j rate-limit failures, and never after a success. */
  lemma AttemptOnlyAfterQuotaFailures(keys: seq<string>, personal: bool, tabList: string, gemini: nat -> Outcome,
                                      frames: seq<Frame>, calls: seq<Call>, j: nat)
    requires RotationTrace(keys, personal, tabList, gemini, frames, calls)
    requires j < |calls|
    ensures !personal || j == 0
    ensures forall i :: 0 <= i < j ==> gemini(i).Threw? && IsRateLimit(gemini(i).message)
  {
    assert j > 0 ==> Rotates(gemini(0), personal);
  }
}

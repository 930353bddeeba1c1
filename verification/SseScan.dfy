/** The account test's event stream: finding the first event while chunks arrive, and the verdict
    read from the whole body.  Framing is the subset of section 9.2.5 of the WHATWG HTML Living
    Standard that the client accepts. */
module SseScan {
  import opened Common

  type Text = seq<char>

  const CR := '\r'
  const LF := '\n'

  /** Every CR LF becomes LF. */
  function Normalized(s: Text): Text {
    if s == [] then []
    else if |s| >= 2 && s[0] == CR && s[1] == LF then [LF] + Normalized(s[2..])
    else [s[0]] + Normalized(s[1..])
  }

  /** The blocks that a blank line has closed; `open` is what the current block holds so far. */
  function Closed(s: Text, open: Text): seq<Text> {
    if |s| < 2 then []
    else if s[0] == LF && s[1] == LF then [open] + Closed(s[2..], [])
    else Closed(s[1..], open + [s[0]])
  }

  function Blocks(body: Text): seq<Text> { Closed(Normalized(body), []) }

  function Lines(block: Text, line: Text): seq<Text> {
    if block == [] then [line]
    else if block[0] == LF then [line] + Lines(block[1..], [])
    else Lines(block[1..], line + [block[0]])
  }

  predicate StartsWith(s: Text, head: Text) { head <= s }

  function TrimEnd(s: Text): Text {
    if s != [] && (s[|s| - 1] == CR || s[|s| - 1] == LF) then TrimEnd(s[..|s| - 1]) else s
  }

  /** What the JSON text of a data line is; reading it is a parameter of the model. */
  datatype Payload = NotJson | NotEvent | ErrorEvent(routing: bool) | CompleteEvent(success: Option<bool>) | OtherEvent

  predicate IsEvent(p: Payload) { p.ErrorEvent? || p.CompleteEvent? || p.OtherEvent? }

  predicate Ignored(line: Text) { line == [] || line[0] == ':' }

  /** The texts after `data:`, or nothing if some line is neither ignored nor a data line. */
  function DataLines(lines: seq<Text>): Option<seq<Text>> {
    if lines == [] then Some([])
    else if Ignored(lines[0]) then DataLines(lines[1..])
    else if !StartsWith(lines[0], "data:") then None
    else
      var rest := DataLines(lines[1..]);
      if rest.None? then None else Some([lines[0][5..]] + rest.value)
  }

  function Trimmed(lines: seq<Text>): seq<Text> {
    if lines == [] then [] else [TrimEnd(lines[0])] + Trimmed(lines[1..])
  }

  /** The check made while the stream arrives. */
  predicate IsEventBlock(block: Text, read: Text -> Payload) {
    var data := DataLines(Trimmed(Lines(block, [])));
    data.Some? && |data.value| == 1 && IsEvent(read(data.value[0]))
  }

  predicate HasEvent(blocks: seq<Text>, read: Text -> Payload) {
    exists k :: 0 <= k < |blocks| && IsEventBlock(blocks[k], read)
  }

  function Joined(chunks: seq<Text>): Text {
    if chunks == [] then [] else Joined(chunks[..|chunks| - 1]) + chunks[|chunks| - 1]
  }

  // ----- Blocks are what splitting at blank lines gives -----

  predicate NoBlankLine(s: Text) { forall i | 0 < i < |s| :: !(s[i - 1] == LF && s[i] == LF) }

  function Unclosed(s: Text, open: Text): Text {
    if |s| < 2 then open + s
    else if s[0] == LF && s[1] == LF then Unclosed(s[2..], [])
    else Unclosed(s[1..], open + [s[0]])
  }

  function Reassembled(blocks: seq<Text>): Text {
    if blocks == [] then [] else blocks[0] + [LF, LF] + Reassembled(blocks[1..])
  }

  /** Joining the blocks and what is still open with blank lines gives the text back. */
  lemma {:induction false} BlocksJoin(s: Text, open: Text)
    ensures open + s == Reassembled(Closed(s, open)) + Unclosed(s, open)
    decreases |s|
  {
    if |s| >= 2 {
      if s[0] == LF && s[1] == LF {
        BlocksJoin(s[2..], []);
        var rest := Closed(s[2..], []);
        assert ([open] + rest)[1..] == rest;
        assert [] + s[2..] == s[2..];
        assert open + s == open + [LF, LF] + s[2..];
        assert open + [LF, LF] + (Reassembled(rest) + Unclosed(s[2..], []))
            == open + [LF, LF] + Reassembled(rest) + Unclosed(s[2..], []);
      } else {
        BlocksJoin(s[1..], open + [s[0]]);
        assert open + [s[0]] + s[1..] == open + s;
      }
    }
  }

  predicate EndsLine(s: Text) { s != [] && s[|s| - 1] == LF }

  lemma NoBlankLineAppend(s: Text, c: char)
    requires NoBlankLine(s) && !(EndsLine(s) && c == LF)
    ensures NoBlankLine(s + [c])
  {
  }

  /** And no part holds a blank line. */
  lemma {:induction false} BlocksAreMaximal(s: Text, open: Text)
    requires NoBlankLine(open) && !(EndsLine(open) && s != [] && s[0] == LF)
    ensures NoBlankLine(Unclosed(s, open))
    ensures forall k | 0 <= k < |Closed(s, open)| :: NoBlankLine(Closed(s, open)[k])
    decreases |s|
  {
    if |s| >= 2 {
      if s[0] == LF && s[1] == LF {
        BlocksAreMaximal(s[2..], []);
      } else {
        NoBlankLineAppend(open, s[0]);
        BlocksAreMaximal(s[1..], open + [s[0]]);
      }
    } else if |s| == 1 {
      NoBlankLineAppend(open, s[0]);
      assert s == [s[0]];
    } else {
      assert open + s == open;
    }
  }

  // ----- Completed blocks only ever grow at the end -----

  lemma NormalizedPair(s: Text)
    ensures Normalized([CR, LF] + s) == [LF] + Normalized(s)
  {
    assert ([CR, LF] + s)[2..] == s;
  }

  lemma NormalizedChar(c: char, s: Text)
    requires !(c == CR && s != [] && s[0] == LF)
    ensures Normalized([c] + s) == [c] + Normalized(s)
  {
    assert ([c] + s)[1..] == s;
  }

  lemma Regroup(a: Text, b: Text, c: Text)
    ensures (a + b) + c == a + (b + c)
  {
  }

  /** `head` is replaced by `image` in front of both texts. */
  lemma JoinFront(head: Text, image: Text, rest: Text, b: Text)
    requires Normalized(rest + b) == Normalized(rest) + Normalized(b)
    requires Normalized(head + rest) == image + Normalized(rest)
    requires Normalized(head + (rest + b)) == image + Normalized(rest + b)
    ensures Normalized((head + rest) + b) == Normalized(head + rest) + Normalized(b)
  {
    Regroup(head, rest, b);
    Regroup(image, Normalized(rest), Normalized(b));
  }

  lemma {:induction false} NormalizedJoin(a: Text, b: Text)
    requires !(a != [] && a[|a| - 1] == CR && b != [] && b[0] == LF)
    ensures Normalized(a + b) == Normalized(a) + Normalized(b)
    decreases |a|
  {
    if a == [] {
      assert a + b == b;
    } else if |a| >= 2 && a[0] == CR && a[1] == LF {
      NormalizedJoin(a[2..], b);
      NormalizedPair(a[2..]);
      NormalizedPair(a[2..] + b);
      assert a == [CR, LF] + a[2..];
      JoinFront([CR, LF], [LF], a[2..], b);
    } else {
      NormalizedJoin(a[1..], b);
      NormalizedChar(a[0], a[1..]);
      NormalizedChar(a[0], a[1..] + b);
      assert a == [a[0]] + a[1..];
      JoinFront([a[0]], [a[0]], a[1..], b);
    }
  }

  lemma {:induction false} ClosedGrows(a: Text, b: Text, open: Text)
    ensures Closed(a, open) <= Closed(a + b, open)
    decreases |a|
  {
    if |a| >= 2 {
      if a[0] == LF && a[1] == LF {
        assert (a + b)[2..] == a[2..] + b;
        ClosedGrows(a[2..], b, []);
      } else {
        assert (a + b)[1..] == a[1..] + b;
        ClosedGrows(a[1..], b, open + [a[0]]);
      }
    }
  }

  lemma {:induction false} ClosedWithoutLast(a: Text, c: char, open: Text)
    requires c != LF
    ensures Closed(a + [c], open) == Closed(a, open)
    decreases |a|
  {
    if |a| >= 2 {
      if a[0] == LF && a[1] == LF {
        assert (a + [c])[2..] == a[2..] + [c];
        ClosedWithoutLast(a[2..], c, []);
      } else {
        assert (a + [c])[1..] == a[1..] + [c];
        ClosedWithoutLast(a[1..], c, open + [a[0]]);
      }
    } else if |a| == 1 {
      assert (a + [c])[1..] == [c];
    }
  }

  /** The completed blocks of a received prefix are a prefix of the completed blocks of anything
      that may follow, also when a CR and its LF arrive in different chunks. */
  lemma BlocksGrow(a: Text, b: Text)
    ensures Blocks(a) <= Blocks(a + b)
  {
    if a != [] && a[|a| - 1] == CR {
      var most := a[..|a| - 1];
      assert a == most + [CR] && a + b == most + ([CR] + b);
      NormalizedJoin(most, [CR]);
      assert Normalized([CR]) == [CR];
      NormalizedJoin(most, [CR] + b);
      ClosedWithoutLast(Normalized(most), CR, []);
      ClosedGrows(Normalized(most), Normalized([CR] + b), []);
    } else {
      NormalizedJoin(a, b);
      ClosedGrows(Normalized(a), Normalized(b), []);
    }
  }

  lemma JoinedStep(chunks: seq<Text>, i: nat)
    requires i < |chunks|
    ensures Joined(chunks[..i + 1]) == Joined(chunks[..i]) + chunks[i]
  {
    assert chunks[..i + 1][..i] == chunks[..i];
  }

  predicate SeenAfter(chunks: seq<Text>, n: nat, read: Text -> Payload)
    requires n <= |chunks|
  {
    HasEvent(Blocks(Joined(chunks[..n])), read)
  }

  lemma EventsAppend(a: seq<Text>, b: seq<Text>, read: Text -> Payload)
    ensures HasEvent(a + b, read) <==> HasEvent(a, read) || HasEvent(b, read)
  {
    if HasEvent(a, read) {
      var k :| 0 <= k < |a| && IsEventBlock(a[k], read);
      assert (a + b)[k] == a[k];
    }
    if HasEvent(b, read) {
      var k :| 0 <= k < |b| && IsEventBlock(b[k], read);
      assert (a + b)[|a| + k] == b[k];
    }
  }

  lemma NewBlocksDecide(before: Text, chunk: Text, read: Text -> Payload)
    requires !HasEvent(Blocks(before), read)
    ensures var n := |Blocks(before)|;
            && n <= |Blocks(before + chunk)|
            && (HasEvent(Blocks(before + chunk), read) <==> HasEvent(Blocks(before + chunk)[n..], read))
  {
    BlocksGrow(before, chunk);
    var all, n := Blocks(before + chunk), |Blocks(before)|;
    assert all == Blocks(before) + all[n..];
    EventsAppend(Blocks(before), all[n..], read);
  }

  /** Looks only at the blocks that each chunk has newly closed.  The chunk at which it sees the
      first event is the one at which a scan of everything received so far would first see one. */
  method MeasureFirstEvent(chunks: seq<Text>, read: Text -> Payload) returns (first: Option<nat>)
    ensures first.Some? ==>
              && first.value < |chunks|
              && SeenAfter(chunks, first.value + 1, read) && !SeenAfter(chunks, first.value, read)
    ensures first.None? ==> !SeenAfter(chunks, |chunks|, read)
  {
    first := None;
    var body: Text := [];
    var measured := 0;
    var i := 0;
    while i < |chunks|
      invariant 0 <= i <= |chunks| && body == Joined(chunks[..i]) && measured == |Blocks(body)|
      invariant first.Some? ==>
                  && first.value < i
                  && SeenAfter(chunks, first.value + 1, read) && !SeenAfter(chunks, first.value, read)
      invariant first.None? ==> !SeenAfter(chunks, i, read)
    {
      JoinedStep(chunks, i);
      ghost var before := body;
      body := body + chunks[i];
      var completed := Blocks(body);
      if first.None? {
        assert !SeenAfter(chunks, i, read);
        NewBlocksDecide(before, chunks[i], read);
        var seen := FindEvent(completed[measured..], read);
        if seen {
          first := Some(i);
        }
      }
      measured := |completed|;
      i := i + 1;
    }
  }

  method FindEvent(blocks: seq<Text>, read: Text -> Payload) returns (seen: bool)
    ensures seen == HasEvent(blocks, read)
  {
    seen := false;
    for k := 0 to |blocks|
      invariant !seen && forall m | 0 <= m < k :: !IsEventBlock(blocks[m], read)
    {
      if IsEventBlock(blocks[k], read) {
        return true;
      }
    }
  }

  /** Once seen, seen in everything that follows: the chunk that `MeasureFirstEvent` names is the
      only one before which no event was there and after which there is one. */
  lemma {:induction false} SeenStays(chunks: seq<Text>, n: nat, m: nat, read: Text -> Payload)
    requires n <= m <= |chunks| && SeenAfter(chunks, n, read)
    ensures SeenAfter(chunks, m, read)
    decreases m - n
  {
    if n < m {
      JoinedStep(chunks, n);
      var a, b := Joined(chunks[..n]), chunks[n];
      BlocksGrow(a, b);
      var k :| 0 <= k < |Blocks(a)| && IsEventBlock(Blocks(a)[k], read);
      assert Blocks(a + b)[k] == Blocks(a)[k];
      SeenStays(chunks, n + 1, m, read);
    }
  }

  // ----- The verdict -----

  datatype Verdict = Passed | Failed | RoutingRejected | Incomplete

  datatype BodyError = InvalidResponse | InvalidFraming | InvalidEvent | InvalidCompletion

  /** One block, given whether a completion was seen before: a verdict, an error, or go on. */
  datatype BlockResult = GoOn(completed: Option<bool>) | Stop(result: Result<Verdict, BodyError>)

  function ReadBlock(block: Text, read: Text -> Payload, completed: Option<bool>): BlockResult {
    var data := DataLines(Lines(block, []));
    if block == [] then GoOn(completed)
    else if data.None? then Stop(Err(InvalidFraming))
    else if data.value == [] then GoOn(completed)
    else if |data.value| != 1 then Stop(Err(InvalidEvent))
    else
      match read(data.value[0])
      case NotJson => Stop(Err(InvalidEvent))
      case NotEvent => Stop(Err(InvalidEvent))
      case ErrorEvent(routing) => Stop(Ok(if routing then RoutingRejected else Failed))
      case CompleteEvent(success) =>
        if success.None? || completed.Some? then Stop(Err(InvalidCompletion)) else GoOn(success)
      case OtherEvent => GoOn(completed)
  }

  function ReadBlocks(blocks: seq<Text>, read: Text -> Payload, completed: Option<bool>): Result<Verdict, BodyError>
    decreases |blocks|
  {
    if blocks == [] then Ok(if completed.None? then Incomplete else if completed.value then Passed else Failed)
    else
      match ReadBlock(blocks[0], read, completed)
      case Stop(result) => result
      case GoOn(next) => ReadBlocks(blocks[1..], read, next)
  }

  predicate EndsBlank(s: Text) { |s| >= 2 && s[|s| - 1] == LF && s[|s| - 2] == LF }

  function TestVerdict(body: Text, read: Text -> Payload): Result<Verdict, BodyError> {
    if body == [] then Err(InvalidResponse)
    else if CR in Normalized(body) || !EndsBlank(Normalized(body)) then Err(InvalidFraming)
    else ReadBlocks(Blocks(body), read, None)
  }

  method AccountTestResult(body: Text, read: Text -> Payload) returns (r: Result<Verdict, BodyError>)
    ensures r == TestVerdict(body, read)
  {
    if body == [] {
      return Err(InvalidResponse);
    }
    var text := Normalized(body);
    if CR in text || !EndsBlank(text) {
      return Err(InvalidFraming);
    }
    var blocks := Closed(text, []);
    var completed: Option<bool> := None;
    for i := 0 to |blocks|
      invariant TestVerdict(body, read) == ReadBlocks(blocks[i..], read, completed)
    {
      assert blocks[i..][1..] == blocks[i + 1..];
      match ReadBlock(blocks[i], read, completed)
      case Stop(result) => return result;
      case GoOn(next) => completed := next;
    }
    r := Ok(if completed.None? then Incomplete else if completed.value then Passed else Failed);
  }

  // ----- What a verdict means -----

  /** The event of a block, if the block is readable and holds one. */
  function EventOf(block: Text, read: Text -> Payload): Option<Payload> {
    var data := DataLines(Lines(block, []));
    if block != [] && data.Some? && |data.value| == 1 && IsEvent(read(data.value[0]))
    then Some(read(data.value[0])) else None
  }

  /** Blocks without lines that count: nothing at all, or only comments. */
  predicate IsSilent(block: Text) { block == [] || DataLines(Lines(block, [])) == Some([]) }

  predicate Readable(block: Text, read: Text -> Payload) {
    IsSilent(block) || (EventOf(block, read).Some? && !EventOf(block, read).value.ErrorEvent?)
  }

  /** The completion a block reports, if it does. */
  function Reported(block: Text, read: Text -> Payload): seq<Option<bool>> {
    var e := EventOf(block, read);
    if !IsSilent(block) && e.Some? && e.value.CompleteEvent? then [e.value.success] else []
  }

  /** The completions the blocks report, in order. */
  function Completions(blocks: seq<Text>, read: Text -> Payload): seq<Option<bool>> {
    if blocks == [] then [] else Reported(blocks[0], read) + Completions(blocks[1..], read)
  }

  predicate AllReadable(blocks: seq<Text>, read: Text -> Payload) {
    forall k | 0 <= k < |blocks| :: Readable(blocks[k], read)
  }

  function Seen(completed: Option<bool>): seq<Option<bool>> { if completed.Some? then [completed] else [] }

  /** What one readable block adds to the completions, and what it leaves of them. */
  lemma ReadableBlock(block: Text, read: Text -> Payload, completed: Option<bool>, rest: seq<Option<bool>>,
          success: bool)
    requires Readable(block, read)
    requires Seen(completed) + (Reported(block, read) + rest) == [Some(success)]
    ensures var next := ReadBlock(block, read, completed);
            next.GoOn? && Seen(next.completed) + rest == [Some(success)]
  {
    var head := Reported(block, read);
    assert |Seen(completed)| + |head| + |rest| == 1;
    if head == [] {
      assert head + rest == rest;
    } else {
      assert Seen(completed) == [] && rest == [];
      assert (Seen(completed) + (head + rest))[0] == head[0];
    }
  }

  lemma {:induction false} DefiniteVerdict(blocks: seq<Text>, read: Text -> Payload, completed: Option<bool>,
          success: bool)
    requires AllReadable(blocks, read) && Seen(completed) + Completions(blocks, read) == [Some(success)]
    ensures ReadBlocks(blocks, read, completed) == Ok(if success then Passed else Failed)
    decreases |blocks|
  {
    if blocks != [] {
      assert Readable(blocks[0], read) && AllReadable(blocks[1..], read);
      ReadableBlock(blocks[0], read, completed, Completions(blocks[1..], read), success);
      DefiniteVerdict(blocks[1..], read, ReadBlock(blocks[0], read, completed).completed, success);
    } else {
      assert Seen(completed) + [] == Seen(completed);
    }
  }

  lemma {:induction false} PassedMeans(blocks: seq<Text>, read: Text -> Payload, completed: Option<bool>)
    requires ReadBlocks(blocks, read, completed) == Ok(Passed)
    ensures AllReadable(blocks, read) && Seen(completed) + Completions(blocks, read) == [Some(true)]
    decreases |blocks|
  {
    if blocks != [] {
      var next := ReadBlock(blocks[0], read, completed);
      PassedMeans(blocks[1..], read, next.completed);
      var rest := Completions(blocks[1..], read);
      assert [] + rest == rest;
    }
  }

  /** The account passed exactly if every block is readable, none is an error event, and the only
      completion is a success. */
  lemma PassedExactly(blocks: seq<Text>, read: Text -> Payload)
    ensures ReadBlocks(blocks, read, None) == Ok(Passed) <==>
            AllReadable(blocks, read) && Completions(blocks, read) == [Some(true)]
  {
    assert [] + Completions(blocks, read) == Completions(blocks, read);
    if ReadBlocks(blocks, read, None) == Ok(Passed) {
      PassedMeans(blocks, read, None);
    }
    if AllReadable(blocks, read) && Completions(blocks, read) == [Some(true)] {
      DefiniteVerdict(blocks, read, None, true);
    }
  }

  // ----- A verdict comes with a measured first event -----

  lemma {:induction false} TrimmedSame(lines: seq<Text>)
    requires forall k | 0 <= k < |lines| :: CR !in lines[k] && LF !in lines[k]
    ensures Trimmed(lines) == lines
  {
    if lines != [] {
      assert TrimEnd(lines[0]) == lines[0];
      TrimmedSame(lines[1..]);
    }
  }

  lemma {:induction false} LinesAreClean(block: Text, line: Text)
    requires CR !in block && CR !in line && LF !in line
    ensures forall k | 0 <= k < |Lines(block, line)| :: CR !in Lines(block, line)[k] && LF !in Lines(block, line)[k]
    decreases |block|
  {
    if block != [] {
      if block[0] == LF {
        LinesAreClean(block[1..], []);
      } else {
        LinesAreClean(block[1..], line + [block[0]]);
      }
    }
  }

  lemma {:induction false} ClosedAreClean(s: Text, open: Text)
    requires CR !in s && CR !in open
    ensures forall k | 0 <= k < |Closed(s, open)| :: CR !in Closed(s, open)[k]
    decreases |s|
  {
    if |s| >= 2 {
      if s[0] == LF && s[1] == LF {
        ClosedAreClean(s[2..], []);
      } else {
        ClosedAreClean(s[1..], open + [s[0]]);
      }
    }
  }

  /** On a block without CR both readers see the same data lines. */
  lemma SameData(block: Text)
    requires CR !in block
    ensures Trimmed(Lines(block, [])) == Lines(block, [])
  {
    LinesAreClean(block, []);
    TrimmedSame(Lines(block, []));
  }

  lemma {:induction false} VerdictHasEvent(blocks: seq<Text>, read: Text -> Payload, completed: Option<bool>)
    requires forall k | 0 <= k < |blocks| :: CR !in blocks[k]
    requires ReadBlocks(blocks, read, completed).Ok? && !ReadBlocks(blocks, read, completed).value.Incomplete?
    ensures completed.Some? || HasEvent(blocks, read)
    decreases |blocks|
  {
    if blocks != [] && completed.None? {
      SameData(blocks[0]);
      if IsEventBlock(blocks[0], read) {
      } else {
        assert ReadBlock(blocks[0], read, None) == GoOn(None);
        VerdictHasEvent(blocks[1..], read, None);
        var k :| 0 <= k < |blocks[1..]| && IsEventBlock(blocks[1..][k], read);
        assert blocks[k + 1] == blocks[1..][k];
      }
    }
  }

  /** Across the two files: whenever the body gives a verdict, passed, failed or rejected, the scan
      of the same body, in whatever chunks it arrived, has measured a first event. */
  lemma VerdictIsMeasured(chunks: seq<Text>, read: Text -> Payload)
    requires var v := TestVerdict(Joined(chunks), read); v.Ok? && !v.value.Incomplete?
    ensures SeenAfter(chunks, |chunks|, read)
  {
    assert chunks[..|chunks|] == chunks;
    ClosedAreClean(Normalized(Joined(chunks)), []);
    VerdictHasEvent(Blocks(Joined(chunks)), read, None);
  }
}

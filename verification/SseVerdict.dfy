/** Exactly which verdict, or which error, a test body gives. */
module SseVerdict {
  import opened Common
  import opened SseScan

  /** The blocks so far are readable and report at most one completion, with its success. */
  ghost predicate Clean(blocks: seq<Text>, read: Text -> Payload, completed: Option<bool>) {
    && AllReadable(blocks, read)
    && AtMostOne(Seen(completed) + Completions(blocks, read))
  }

  predicate AtMostOne(completions: seq<Option<bool>>) {
    completions == [] || (|completions| == 1 && completions[0].Some?)
  }

  /** The reason why a block ends the reading, after the completions reported before it. */
  predicate Ends(block: Text, read: Text -> Payload, earlier: seq<Option<bool>>, result: Result<Verdict, BodyError>) {
    && block != []
    && var data, e := DataLines(Lines(block, [])), EventOf(block, read);
       match result
       case Err(InvalidFraming) => data.None?
       case Err(InvalidEvent) => data.Some? && data.value != [] && e.None?
       case Err(InvalidCompletion) =>
         e.Some? && e.value.CompleteEvent? && (e.value.success.None? || earlier != [])
       case Err(InvalidResponse) => false
       case Ok(Failed) => e == Some(ErrorEvent(false))
       case Ok(RoutingRejected) => e == Some(ErrorEvent(true))
       case Ok(_) => false
  }

  lemma CleanBlock(block: Text, read: Text -> Payload, completed: Option<bool>)
    requires AtMostOne(Seen(completed))
    ensures var head := Seen(completed) + Reported(block, read);
            Readable(block, read) && AtMostOne(head) ==>
              ReadBlock(block, read, completed).GoOn? && Seen(ReadBlock(block, read, completed).completed) == head
    ensures !(Readable(block, read) && AtMostOne(Seen(completed) + Reported(block, read))) ==>
              && ReadBlock(block, read, completed).Stop?
              && Ends(block, read, Seen(completed), ReadBlock(block, read, completed).result)
  {
    var head := Reported(block, read);
    if head == [] { assert Seen(completed) + head == Seen(completed); }
    if Seen(completed) == [] { assert Seen(completed) + head == head; }
  }

  lemma EndsOnce(block: Text, read: Text -> Payload, completed: Option<bool>, result: Result<Verdict, BodyError>)
    requires Ends(block, read, Seen(completed), result)
    ensures ReadBlock(block, read, completed) == Stop(result)
  {
  }

  lemma {:induction false} CleanRun(blocks: seq<Text>, rest: seq<Text>, read: Text -> Payload, completed: Option<bool>)
    returns (after: Option<bool>)
    requires Clean(blocks, read, completed) && AtMostOne(Seen(completed))
    ensures ReadBlocks(blocks + rest, read, completed) == ReadBlocks(rest, read, after)
    ensures Seen(after) == Seen(completed) + Completions(blocks, read)
    decreases |blocks|
  {
    if blocks == [] {
      assert blocks + rest == rest;
      after := completed;
    } else {
      var head, tail := Reported(blocks[0], read), Completions(blocks[1..], read);
      assert (blocks + rest)[1..] == blocks[1..] + rest;
      assert Seen(completed) + (head + tail) == Seen(completed) + head + tail;
      assert Readable(blocks[0], read);
      PrefixAtMostOne(Seen(completed) + head, tail);
      CleanBlock(blocks[0], read, completed);
      after := CleanRun(blocks[1..], rest, read, ReadBlock(blocks[0], read, completed).completed);
    }
  }

  lemma PrefixAtMostOne(a: seq<Option<bool>>, b: seq<Option<bool>>)
    requires AtMostOne(a + b)
    ensures AtMostOne(a)
  {
    if a != [] { assert (a + b)[0] == a[0]; }
  }

  /** Reading goes on to the end, or to the first block that ends it. */
  lemma {:induction false} ReadsTo(blocks: seq<Text>, read: Text -> Payload, completed: Option<bool>) returns (n: nat)
    requires AtMostOne(Seen(completed))
    ensures n <= |blocks| && Clean(blocks[..n], read, completed)
    ensures n < |blocks| ==> Ends(blocks[n], read, Seen(completed) + Completions(blocks[..n], read),
                                  ReadBlocks(blocks, read, completed))
    decreases |blocks|
  {
    n := 0;
    assert Seen(completed) + [] == Seen(completed);
    if blocks != [] {
      CleanBlock(blocks[0], read, completed);
      if ReadBlock(blocks[0], read, completed).GoOn? {
        var next := ReadBlock(blocks[0], read, completed).completed;
        var m := ReadsTo(blocks[1..], read, next);
        n := m + 1;
        CleanMore(blocks, read, completed, m);
      }
    }
  }

  lemma CleanMore(blocks: seq<Text>, read: Text -> Payload, completed: Option<bool>, m: nat)
    requires m < |blocks| && ReadBlock(blocks[0], read, completed).GoOn? && AtMostOne(Seen(completed))
    requires Clean(blocks[1..][..m], read, ReadBlock(blocks[0], read, completed).completed)
    ensures Clean(blocks[..m + 1], read, completed)
    ensures Seen(ReadBlock(blocks[0], read, completed).completed) + Completions(blocks[1..][..m], read)
         == Seen(completed) + Completions(blocks[..m + 1], read)
  {
    var all, head, tail := blocks[..m + 1], Reported(blocks[0], read), Completions(blocks[1..][..m], read);
    CleanBlock(blocks[0], read, completed);
    assert all[1..] == blocks[1..][..m];
    assert Seen(completed) + (head + tail) == Seen(completed) + head + tail;
    forall k | 0 <= k < |all| ensures Readable(all[k], read) {
      if k > 0 { assert all[k] == blocks[1..][..m][k - 1]; }
    }
  }

  /** The verdict of a body that is read to its end. */
  function Summary(completions: seq<Option<bool>>): Verdict {
    if completions == [] then Incomplete else if completions[0] == Some(true) then Passed else Failed
  }

  lemma SummaryMeans(completions: seq<Option<bool>>)
    ensures AtMostOne(completions) ==>
              && (Summary(completions).Passed? <==> completions == [Some(true)])
              && (Summary(completions).Failed? <==> completions == [Some(false)])
              && (Summary(completions).Incomplete? <==> completions == [])
  {
    if |completions| == 1 && completions[0].Some? {
      var success := completions[0].value;
      assert completions == [Some(success)];
      assert success || completions == [Some(false)];
    }
  }

  /** Some block ends the reading with this result, and all before it are clean. */
  ghost predicate EndsAt(blocks: seq<Text>, read: Text -> Payload, n: nat, result: Result<Verdict, BodyError>) {
    && n < |blocks| && Clean(blocks[..n], read, None)
    && Ends(blocks[n], read, Completions(blocks[..n], read), result)
  }

  lemma EndsAtGives(blocks: seq<Text>, read: Text -> Payload, n: nat, result: Result<Verdict, BodyError>)
    requires EndsAt(blocks, read, n, result)
    ensures ReadBlocks(blocks, read, None) == result
  {
    assert blocks == blocks[..n] + blocks[n..];
    var after := CleanRun(blocks[..n], blocks[n..], read, None);
    assert [] + Completions(blocks[..n], read) == Completions(blocks[..n], read);
    EndsOnce(blocks[n], read, after, result);
  }

  lemma CleanGives(blocks: seq<Text>, read: Text -> Payload)
    requires Clean(blocks, read, None)
    ensures ReadBlocks(blocks, read, None) == Ok(Summary(Completions(blocks, read)))
  {
    assert blocks + [] == blocks;
    var after := CleanRun(blocks, [], read, None);
    assert [] + Completions(blocks, read) == Completions(blocks, read);
  }

  /** Reading the blocks gives this result exactly if they are all clean and it sums them up, or if
      the first block that is not clean ends the reading with it. */
  lemma BlocksGive(blocks: seq<Text>, read: Text -> Payload, result: Result<Verdict, BodyError>)
    ensures ReadBlocks(blocks, read, None) == result <==>
              || (Clean(blocks, read, None) && result == Ok(Summary(Completions(blocks, read))))
              || (exists n: nat :: EndsAt(blocks, read, n, result))
  {
    if Clean(blocks, read, None) { CleanGives(blocks, read); }
    forall n: nat | EndsAt(blocks, read, n, result) ensures ReadBlocks(blocks, read, None) == result {
      EndsAtGives(blocks, read, n, result);
    }
    var n := ReadsTo(blocks, read, None);
    assert [] + Completions(blocks[..n], read) == Completions(blocks[..n], read);
    if n == |blocks| {
      assert blocks[..n] == blocks;
    } else {
      assert EndsAt(blocks, read, n, ReadBlocks(blocks, read, None));
    }
  }

  // ----- Lines -----

  /** The lines with a line break between each two. */
  function WithBreaks(lines: seq<Text>): Text
    requires lines != []
  {
    if |lines| == 1 then lines[0] else lines[0] + [LF] + WithBreaks(lines[1..])
  }

  /** A block is split at its line breaks: no line holds one, and with the breaks they give the block. */
  lemma {:induction false} LinesMean(block: Text, line: Text)
    requires LF !in line
    ensures var lines := Lines(block, line);
            && lines != [] && WithBreaks(lines) == line + block
            && forall i | 0 <= i < |lines| :: LF !in lines[i]
    decreases |block|
  {
    if block == [] {
      assert line + block == line;
    } else if block[0] == LF {
      LinesMean(block[1..], []);
      assert [] + block[1..] == block[1..] && line + block == line + [LF] + block[1..];
      assert ([line] + Lines(block[1..], []))[1..] == Lines(block[1..], []);
    } else {
      LinesMean(block[1..], line + [block[0]]);
      assert line + [block[0]] + block[1..] == line + block;
    }
  }

  /** Only carriage returns and line feeds at the end go. */
  lemma {:induction false} TrimMeans(s: Text)
    ensures var n := |TrimEnd(s)|;
            && n <= |s| && TrimEnd(s) == s[..n] && (forall i | n <= i < |s| :: s[i] == CR || s[i] == LF)
            && (n > 0 ==> s[n - 1] != CR && s[n - 1] != LF)
  {
    if s != [] && (s[|s| - 1] == CR || s[|s| - 1] == LF) {
      TrimMeans(s[..|s| - 1]);
    }
  }

  // ----- Data lines -----

  predicate IsData(line: Text) { |line| >= 5 && line[..5] == "data:" }

  predicate IsComment(line: Text) { line == [] || line[0] == ':' }

  /** The texts of the data lines, in order. */
  function DataTexts(lines: seq<Text>): seq<Text> {
    if lines == [] then []
    else
      var last := lines[|lines| - 1];
      DataTexts(lines[..|lines| - 1]) + if IsData(last) then [last[5..]] else []
  }

  lemma {:induction false} DataTextsSplit(lines: seq<Text>)
    requires lines != []
    ensures DataTexts(lines) == (if IsData(lines[0]) then [lines[0][5..]] else []) + DataTexts(lines[1..])
    decreases |lines|
  {
    var most, last := lines[..|lines| - 1], lines[|lines| - 1];
    if |lines| == 1 {
      assert most == [] && lines[1..] == [];
    } else {
      DataTextsSplit(most);
      assert most[1..] == lines[1..][..|lines[1..]| - 1];
      var head, tail := if IsData(lines[0]) then [lines[0][5..]] else [], if IsData(last) then [last[5..]] else [];
      assert (head + DataTexts(most[1..])) + tail == head + (DataTexts(most[1..]) + tail);
    }
  }

  /** Lines are accepted exactly if each is empty, a comment, or begins with `data:`; what follows there
      is the data. */
  lemma {:induction false} DataLinesMean(lines: seq<Text>)
    ensures DataLines(lines).Some? <==> forall i | 0 <= i < |lines| :: IsComment(lines[i]) || IsData(lines[i])
    ensures DataLines(lines).Some? ==> DataLines(lines).value == DataTexts(lines)
  {
    if lines != [] {
      DataLinesMean(lines[1..]);
      DataTextsSplit(lines);
      assert [] + DataTexts(lines[1..]) == DataTexts(lines[1..]);
      assert forall i | 0 < i < |lines| :: lines[i] == lines[1..][i - 1];
      assert IsData(lines[0]) ==> !IsComment(lines[0]);
    }
  }

  /** The body has no stray CR and its last block is closed. */
  predicate WellFramed(body: Text) {
    var text := Normalized(body);
    CR !in text && |text| >= 2 && text[|text| - 2..] == [LF, LF]
  }

  /** Each verdict, in terms of the body's blocks. */
  lemma VerdictsExactly(body: Text, read: Text -> Payload)
    ensures var v, blocks := TestVerdict(body, read), Blocks(body);
            var framed, clean := body != [] && WellFramed(body), AllReadable(blocks, read);
            && (v == Ok(Passed) <==> framed && clean && Completions(blocks, read) == [Some(true)])
            && (v == Ok(Incomplete) <==> framed && clean && Completions(blocks, read) == [])
            && (v == Ok(Failed) <==>
                  && framed
                  && ((clean && Completions(blocks, read) == [Some(false)])
                      || exists n: nat :: EndsAt(blocks, read, n, Ok(Failed))))
            && (v == Ok(RoutingRejected) <==> framed && exists n: nat :: EndsAt(blocks, read, n, Ok(RoutingRejected)))
  {
    var blocks := Blocks(body);
    assert [] + Completions(blocks, read) == Completions(blocks, read);
    BlocksGive(blocks, read, Ok(Passed));
    BlocksGive(blocks, read, Ok(Incomplete));
    BlocksGive(blocks, read, Ok(Failed));
    BlocksGive(blocks, read, Ok(RoutingRejected));
    SummaryMeans(Completions(blocks, read));
  }

  /** Each error, in terms of the body's blocks. */
  lemma ErrorsExactly(body: Text, read: Text -> Payload)
    ensures var v, blocks := TestVerdict(body, read), Blocks(body);
            var framed := body != [] && WellFramed(body);
            && (v == Err(InvalidResponse) <==> body == [])
            && (v == Err(InvalidFraming) <==>
                  && body != []
                  && (!WellFramed(body) || exists n: nat :: EndsAt(blocks, read, n, Err(InvalidFraming))))
            && (v == Err(InvalidEvent) <==> framed && exists n: nat :: EndsAt(blocks, read, n, Err(InvalidEvent)))
            && (v == Err(InvalidCompletion) <==>
                  framed && exists n: nat :: EndsAt(blocks, read, n, Err(InvalidCompletion)))
  {
    var blocks := Blocks(body);
    BlocksGive(blocks, read, Err(InvalidResponse));
    BlocksGive(blocks, read, Err(InvalidFraming));
    BlocksGive(blocks, read, Err(InvalidEvent));
    BlocksGive(blocks, read, Err(InvalidCompletion));
  }
}

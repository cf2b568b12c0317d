/**
 * ServerWorker: the task that serves one admitted connection.  It greets the
 * client with SUCC, then answers every line it reads with the interim line and,
 * unless the line is "quit", with the processor's response and a blank line.
 * The client's lines are a finite sequence; its end stands for the client
 * closing the connection, or for a read that failed, which ends the loop the
 * same way.
 */
module ServerWorker {
  import opened Wrappers
  import opened Protocol
  import opened Processors

  /** A worker holds the processor that was bound when it was dispatched; null is None. */
  datatype Worker = Worker(processor: Option<Processor>)

  /** The line written in answer to a request other than quit. */
  function Reply(processor: Option<Processor>, line: string): (r: string)
    ensures processor.None? ==> r == FALLBACK
    ensures processor == Some(Echo) ==> |r| == |ECHO_PREFIX| + |line| && r[..|ECHO_PREFIX|] == ECHO_PREFIX && r[|ECHO_PREFIX|..] == line
  {
    match processor
    case Some(p) => Process(p, line)
    case None => FALLBACK
  }

  /** A processor binding whose replies are never the blank line. */
  ghost predicate NeverBlankReply(processor: Option<Processor>)
  {
    processor.Some? ==> NeverBlank(processor.value)
  }

  lemma NeverBlankReplyLine(processor: Option<Processor>, line: string)
    requires NeverBlankReply(processor)
    ensures Reply(processor, line) != BLANK
  {
    if processor.Some? {
      NeverBlankProcess(processor.value, line);
    }
  }

  /** Everything the worker writes after SUCC, for the client's lines `input`. */
  function Transcript(processor: Option<Processor>, input: seq<string>): (t: seq<string>)
    ensures |t| <= 3 * |input|
    ensures input != [] ==> |t| > 0 && t[0] == PROCESSING
    decreases |input|
  {
    if input == [] then []
    else if input[0] == QUIT then [PROCESSING]
    else [PROCESSING, Reply(processor, input[0]), BLANK] + Transcript(processor, input[1..])
  }

  /** How many of the client's lines the worker reads: up to and including the first quit. */
  function Consumed(input: seq<string>): (n: nat)
    ensures n <= |input|
    ensures forall k :: 0 <= k < n - 1 ==> input[k] != QUIT
    ensures n < |input| ==> n > 0 && input[n - 1] == QUIT
    decreases |input|
  {
    if input == [] then 0
    else if input[0] == QUIT then 1
    else 1 + Consumed(input[1..])
  }

  /**
   * ServerWorker.run.  `socketAlive` is false when the weak reference to the
   * client socket has been cleared: the worker then returns at once, writes
   * nothing and does not release its slot.  Otherwise `releasesSlot` is the
   * decrement that follows the loop when the loop ends by quit, by the end of
   * input or by a failed read.  Processors are total here, so a processor that
   * throws, which skips that decrement, is not modelled.
   */
  method Run(w: Worker, socketAlive: bool, input: seq<string>) returns (output: seq<string>, consumed: nat, releasesSlot: bool)
    ensures !socketAlive ==> output == [] && consumed == 0 && !releasesSlot
    ensures socketAlive ==> output == [SUCC] + Transcript(w.processor, input)
    ensures socketAlive ==> consumed == Consumed(input) && releasesSlot
  {
    if !socketAlive {
      return [], 0, false;
    }
    output := [SUCC];
    consumed := 0;
    var i := 0;
    while i < |input|
      invariant 0 <= i <= |input| && consumed == i
      invariant [SUCC] + Transcript(w.processor, input) == output + Transcript(w.processor, input[i..])
      invariant Consumed(input) == i + Consumed(input[i..])
    {
      var line := input[i];
      consumed := consumed + 1;
      output := output + [PROCESSING];
      if line == QUIT {
        break;
      }
      output := output + [Reply(w.processor, line), BLANK];
      assert input[i..][1..] == input[i + 1..];
      i := i + 1;
    }
    releasesSlot := true;
  }

  /**
   * `t` answers every line of `input` with exactly three lines: the interim
   * line, the reply, the blank line.
   */
  ghost predicate LaidOut(processor: Option<Processor>, input: seq<string>, t: seq<string>)
  {
    && |t| == 3 * |input|
    && forall k :: 0 <= k < |input| ==>
      && t[3 * k] == PROCESSING
      && t[3 * k + 1] == Reply(processor, input[k])
      && t[3 * k + 2] == BLANK
  }

  lemma LaidOutCons(processor: Option<Processor>, input: seq<string>, rest: seq<string>)
    requires input != [] && LaidOut(processor, input[1..], rest)
    ensures LaidOut(processor, input, [PROCESSING, Reply(processor, input[0]), BLANK] + rest)
  {
    var t := [PROCESSING, Reply(processor, input[0]), BLANK] + rest;
    forall k | 1 <= k < |input|
      ensures t[3 * k] == PROCESSING && t[3 * k + 1] == Reply(processor, input[k]) && t[3 * k + 2] == BLANK
    {
      var j := k - 1;
      assert input[1..][j] == input[k];
      assert rest[3 * j] == PROCESSING && rest[3 * j + 1] == Reply(processor, input[k]) && rest[3 * j + 2] == BLANK;
      assert 3 * k == 3 * j + 3;
      assert t[3 * k] == rest[3 * j] && t[3 * k + 1] == rest[3 * j + 1] && t[3 * k + 2] == rest[3 * j + 2];
    }
  }

  /** Without quit, the transcript is laid out line by line and every line is read. */
  lemma {:induction false} TranscriptLayout(processor: Option<Processor>, input: seq<string>)
    requires QUIT !in input
    ensures LaidOut(processor, input, Transcript(processor, input))
    ensures Consumed(input) == |input|
    decreases |input|
  {
    if input != [] {
      assert QUIT !in input[1..];
      TranscriptLayout(processor, input[1..]);
      LaidOutCons(processor, input, Transcript(processor, input[1..]));
    }
  }

  /**
   * quit is answered with the interim line only; no response follows and
   * nothing after it is read.
   */
  lemma {:induction false} TranscriptStopsAtQuit(processor: Option<Processor>, before: seq<string>, after: seq<string>)
    requires QUIT !in before
    ensures Transcript(processor, before + [QUIT] + after) == Transcript(processor, before) + [PROCESSING]
    ensures Consumed(before + [QUIT] + after) == |before| + 1
    decreases |before|
  {
    var input := before + [QUIT] + after;
    if before == [] {
      assert input[0] == QUIT;
    } else {
      assert input[0] == before[0];
      assert input[1..] == before[1..] + [QUIT] + after;
      assert QUIT !in before[1..];
      TranscriptStopsAtQuit(processor, before[1..], after);
    }
  }

  /**
   * When replies are never blank, the blank lines of a transcript without quit
   * are exactly the ones that end a response.
   */
  lemma BlankLinesEndResponses(processor: Option<Processor>, input: seq<string>, j: nat)
    requires QUIT !in input && NeverBlankReply(processor)
    requires j < |Transcript(processor, input)|
    ensures Transcript(processor, input)[j] == BLANK <==> j % 3 == 2
  {
    TranscriptLayout(processor, input);
    LaidOutBlanks(processor, input, Transcript(processor, input), j);
  }

  lemma LaidOutBlanks(processor: Option<Processor>, input: seq<string>, t: seq<string>, j: nat)
    requires LaidOut(processor, input, t) && NeverBlankReply(processor) && j < |t|
    ensures t[j] == BLANK <==> j % 3 == 2
  {
    var k := j / 3;
    assert j == 3 * k + j % 3 && k < |input|;
    NeverBlankReplyLine(processor, input[k]);
    if j % 3 == 0 {
      assert t[j] == PROCESSING;
    } else if j % 3 == 1 {
      assert t[j] == Reply(processor, input[k]);
    } else {
      assert t[j] == BLANK;
    }
  }

  /** Without a processor, every response is the fallback message. */
  lemma NullProcessorFallback(input: seq<string>, k: nat)
    requires QUIT !in input && k < |input|
    ensures |Transcript(None, input)| == 3 * |input| && Transcript(None, input)[3 * k + 1] == FALLBACK
  {
    TranscriptLayout(None, input);
  }

  /** The exchange for "ping" with the default processor. */
  lemma PingExchange()
    ensures [SUCC] + Transcript(Some(Echo), ["ping"]) == [SUCC, PROCESSING, "(Echo) ping", BLANK]
  {
    assert ["ping"][1..] == [];
    assert Reply(Some(Echo), "ping") == "(Echo) " + "ping" == "(Echo) ping";
  }
}

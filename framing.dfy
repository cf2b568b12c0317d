/**
 * The client's read loop against the worker's output: the client reads each
 * response up to the worker's blank line, so client and worker stay in step
 * as long as no response line is itself blank.
 */
module Framing {
  import opened Wrappers
  import opened Text
  import opened Protocol
  import opened Processors
  import opened ServerWorker
  import opened Client
  import Server

  /** The lines the client sends for the reads `user`, which the worker then reads. */
  function SentLines(user: seq<Option<string>>): (lines: seq<string>)
    ensures |lines| == |user|
  {
    seq(|user|, k requires 0 <= k < |user| => Outgoing(user[k]))
  }

  /** The exchange the client records for one request the worker answered. */
  function Expected(processor: Option<Processor>, request: string): Exchange
  {
    Exchange(request, [PROCESSING, Reply(processor, request)])
  }

  lemma SuccIsNotRefusal()
    ensures !Contains(SUCC, ERR)
  {
    if Contains(SUCC, ERR) {
      ContainsNeedsFirstChar(SUCC, ERR);
      assert false;
    }
  }

  /** One round: the client reads the interim line and the reply, and stops after the blank line. */
  lemma OneResponse(processor: Option<Processor>, server: seq<string>, pos: nat, request: string)
    requires NeverBlankReply(processor)
    requires pos + 3 <= |server|
    requires server[pos..pos + 3] == [PROCESSING, Reply(processor, request), BLANK]
    ensures ReadResponse(server, pos) == Response([PROCESSING, Reply(processor, request)], pos + 3)
  {
    NeverBlankReplyLine(processor, request);
    assert server[pos] == PROCESSING && server[pos + 1] == Reply(processor, request) && server[pos + 2] == BLANK;
    assert ReadResponse(server, pos + 2) == Response([], pos + 3);
  }

  /** The worker's answer to a request other than quit, followed by the rest of its transcript. */
  lemma TranscriptFirst(processor: Option<Processor>, user: seq<Option<string>>)
    requires user != [] && Some(QUIT) !in user
    ensures Outgoing(user[0]) != QUIT
    ensures Transcript(processor, SentLines(user))
      == [PROCESSING, Reply(processor, Outgoing(user[0])), BLANK] + Transcript(processor, SentLines(user[1..]))
  {
    if user[0].Some? {
      assert user[0] in user;
    }
    assert SentLines(user)[1..] == SentLines(user[1..]);
  }

  /** The rounds the client records against a worker with non-blank replies. */
  ghost predicate InStep(processor: Option<Processor>, s: Session, user: seq<Option<string>>)
  {
    && |s.exchanges| == |user|
    && forall k :: 0 <= k < |user| ==> s.exchanges[k] == Expected(processor, Outgoing(user[k]))
  }

  lemma InStepCons(processor: Option<Processor>, rest: Session, user: seq<Option<string>>)
    requires user != [] && InStep(processor, rest, user[1..])
    ensures InStep(processor, After([Expected(processor, Outgoing(user[0]))], rest), user)
  {
  }

  lemma {:induction false} RoundsFollowWorker(processor: Option<Processor>, server: seq<string>, pos: nat, user: seq<Option<string>>)
    requires NeverBlankReply(processor)
    requires Some(QUIT) !in user
    requires pos <= |server| && server[pos..] == Transcript(processor, SentLines(user))
    ensures var s := Rounds(server, pos, user + [Some(QUIT)]);
      s.outcome == Quit && s.consumed == |server| && InStep(processor, s, user)
    decreases |user|
  {
    var all := user + [Some(QUIT)];
    if user == [] {
      assert all[0] == Some(QUIT);
      assert server[pos..] == [];
    } else {
      var request := Outgoing(user[0]);
      TranscriptFirst(processor, user);
      assert server[pos..pos + 3] == server[pos..][..3];
      OneResponse(processor, server, pos, request);
      assert server[pos + 3..] == server[pos..][3..];
      assert Some(QUIT) !in user[1..];
      RoundsFollowWorker(processor, server, pos + 3, user[1..]);
      assert all[0] == user[0] && all[1..] == user[1..] + [Some(QUIT)];
      RoundsStep(server, pos, all);
      var r := ReadResponse(server, pos);
      assert After([], Rounds(server, pos, all)) == After([Exchange(Outgoing(all[0]), r.replies)], Rounds(server, r.next, all[1..]));
      InStepCons(processor, Rounds(server, pos + 3, all[1..]), user);
    }
  }

  /**
   * An admitted client that types the lines `user` and then quit, talking to a
   * worker whose replies are never blank: every round records the interim
   * line and the reply to what it sent, and the session ends having read
   * exactly the lines the worker wrote.
   */
  lemma ClientFollowsWorker(processor: Option<Processor>, user: seq<Option<string>>)
    requires NeverBlankReply(processor)
    requires Some(QUIT) !in user
    ensures var server := [SUCC] + Transcript(processor, SentLines(user));
      var s := ClientSession(server, user + [Some(QUIT)]);
      && s.outcome == Quit && s.consumed == |server| && |s.exchanges| == |user|
      && forall k :: 0 <= k < |user| ==> s.exchanges[k] == Expected(processor, Outgoing(user[k]))
  {
    var server := [SUCC] + Transcript(processor, SentLines(user));
    SuccIsNotRefusal();
    assert server[1..] == Transcript(processor, SentLines(user));
    RoundsFollowWorker(processor, server, 1, user);
  }

  /** The same for the default echo processor, which needs no assumption. */
  lemma EchoClientFollowsWorker(user: seq<Option<string>>)
    requires Some(QUIT) !in user
    ensures var server := [SUCC] + Transcript(Some(Echo), SentLines(user));
      var s := ClientSession(server, user + [Some(QUIT)]);
      && s.outcome == Quit && s.consumed == |server| && |s.exchanges| == |user|
      && forall k :: 0 <= k < |user| ==> s.exchanges[k].replies == [PROCESSING, ECHO_PREFIX + Outgoing(user[k])]
  {
    EchoNeverBlank("");
    ClientFollowsWorker(Some(Echo), user);
  }

  /** A client the server refused aborts and sends nothing. */
  lemma RefusedClientSendsNothing(user: seq<Option<string>>)
    ensures ClientSession(Server.RejectionReply(), user) == Session(Aborted, [], 1)
  {
  }

  /**
   * A processor that answers with the blank line breaks the framing: the
   * client takes the reply for the end of the response and falls one line
   * behind the worker.
   */
  lemma BlankReplyDesynchronises()
    ensures var processor := Some(Custom(_ => BLANK));
      var user := [Some("a"), Some("b")];
      var server := [SUCC] + Transcript(processor, SentLines(user));
      var s := ClientSession(server, user);
      && server == [SUCC, PROCESSING, BLANK, BLANK, PROCESSING, BLANK, BLANK]
      && s.exchanges == [Exchange("a", [PROCESSING]), Exchange("b", [])]
      && s.consumed < |server|
  {
    var processor := Some(Custom(_ => BLANK));
    var user := [Some("a"), Some("b")];
    var lines := SentLines(user);
    assert lines == ["a", "b"];
    assert Transcript(processor, ["b"]) == [PROCESSING, BLANK, BLANK] by {
      assert ["b"][1..] == [];
    }
    assert lines[1..] == ["b"];
    var server := [SUCC] + Transcript(processor, lines);
    assert server == [SUCC, PROCESSING, BLANK, BLANK, PROCESSING, BLANK, BLANK];
    SuccIsNotRefusal();
    assert ReadResponse(server, 1) == Response([PROCESSING], 3) by {
      assert ReadResponse(server, 2) == Response([], 3);
    }
    assert ReadResponse(server, 3) == Response([], 4);
    assert user[1..] == [Some("b")] && user[1..][1..] == [];
  }
}

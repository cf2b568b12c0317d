/**
 * ClientProgram.connect, over a fixed stream of server lines and a finite
 * sequence of reads from standard input.  A read past the end of the server
 * stream yields null; None in `user` is a read of standard input that yielded
 * null.  When `user` runs out the session is cut off there: the program
 * itself would go on reading.
 */
module Client {
  import opened Wrappers
  import opened Text
  import opened Protocol

  datatype Outcome =
    | Aborted         // the first server line contained ERR
    | Quit            // the user typed quit
    | InputExhausted  // the modelled reads of standard input ran out

  /** One round of the loop: the line sent, then the lines read and printed for it. */
  datatype Exchange = Exchange(request: string, replies: seq<string>)

  /** A session: how it ended, its rounds, and how many server lines it read. */
  datatype Session = Session(outcome: Outcome, exchanges: seq<Exchange>, consumed: nat)

  /** The lines of one response and the position after them. */
  datatype Response = Response(replies: seq<string>, next: nat)

  /** BufferedReader.readLine on the server stream at position `pos`. */
  function ReadLine(server: seq<string>, pos: nat): Option<string>
  {
    if pos < |server| then Some(server[pos]) else None
  }

  /** The line println(stdInput) sends for one read of standard input: null prints as "null". */
  function Outgoing(input: Option<string>): (line: string)
    ensures input.Some? ==> line == input.value
    ensures line == QUIT <==> input == Some(QUIT)
  {
    match input
    case Some(line) => line
    case None => "null"
  }

  /** The inner loop: read lines up to and including the first blank one, or to the end of the stream. */
  function ReadResponse(server: seq<string>, pos: nat): (r: Response)
    requires pos <= |server|
    ensures pos <= r.next <= |server|
    ensures BLANK !in r.replies
    ensures r.next < |server| ==> |r.replies| + 1 == r.next - pos
    decreases |server| - pos
  {
    if pos == |server| then Response([], pos)
    else if server[pos] == BLANK then Response([], pos + 1)
    else
      var rest := ReadResponse(server, pos + 1);
      Response([server[pos]] + rest.replies, rest.next)
  }

  /** The while(true) loop, from server position `pos`, on the remaining reads `user`. */
  function Rounds(server: seq<string>, pos: nat, user: seq<Option<string>>): (s: Session)
    requires pos <= |server|
    ensures s.outcome != Aborted
    ensures s.outcome == Quit <==> Some(QUIT) in user
    ensures pos <= s.consumed <= |server|
    ensures |s.exchanges| <= |user|
    ensures forall k :: 0 <= k < |s.exchanges| ==> s.exchanges[k].request != QUIT
    decreases |user|
  {
    if user == [] then Session(InputExhausted, [], pos)
    else if user[0] == Some(QUIT) then Session(Quit, [], pos)
    else
      var response := ReadResponse(server, pos);
      var rest := Rounds(server, response.next, user[1..]);
      assert user == [user[0]] + user[1..];
      Session(rest.outcome, [Exchange(Outgoing(user[0]), response.replies)] + rest.exchanges, rest.consumed)
  }

  /** The first server line makes the client abort. */
  predicate RefusedBy(server: seq<string>): (b: bool)
    ensures b <==> |server| > 0 && exists i :: OccursAt(server[0], ERR, i)
  {
    if |server| > 0 then
      ContainsAtIndex(server[0], ERR);
      Contains(server[0], ERR)
    else false
  }

  /** connect, as a function of what the server writes and what the user types. */
  function ClientSession(server: seq<string>, user: seq<Option<string>>): (s: Session)
    ensures s.outcome == Aborted <==> RefusedBy(server)
    ensures s.outcome == Aborted ==> s.exchanges == [] && s.consumed == 1
    ensures s.outcome == Quit <==> !RefusedBy(server) && Some(QUIT) in user
    ensures s.consumed <= |server|
    ensures forall k :: 0 <= k < |s.exchanges| ==> s.exchanges[k].request != QUIT
  {
    if RefusedBy(server) then Session(Aborted, [], 1)
    else Rounds(server, if |server| > 0 then 1 else 0, user)
  }

  /** Prepends the rounds already done to the session that follows them. */
  function After(done: seq<Exchange>, s: Session): Session
  {
    Session(s.outcome, done + s.exchanges, s.consumed)
  }

  /** The inner for loop of connect: print server lines until a blank line or the end of the stream. */
  method ReadReplies(server: seq<string>, start: nat) returns (replies: seq<string>, pos: nat)
    requires start <= |server|
    ensures Response(replies, pos) == ReadResponse(server, start)
  {
    pos := start;
    replies := [];
    while true
      invariant start <= pos <= |server|
      invariant ReadResponse(server, start) == Response(replies + ReadResponse(server, pos).replies, ReadResponse(server, pos).next)
      decreases |server| - pos
    {
      var resp := ReadLine(server, pos);
      if resp.None? {
        break;
      }
      pos := pos + 1;
      if resp.value == BLANK {
        break;
      }
      replies := replies + [resp.value];
    }
  }

  /** One round of the loop, followed by the rounds after it. */
  lemma RoundsStep(server: seq<string>, pos: nat, user: seq<Option<string>>)
    requires pos <= |server| && user != [] && user[0] != Some(QUIT)
    ensures forall done ::
              After(done, Rounds(server, pos, user)) ==
              After(done + [Exchange(Outgoing(user[0]), ReadResponse(server, pos).replies)],
                    Rounds(server, ReadResponse(server, pos).next, user[1..]))
  {
  }

  /** The client program's connect, with the socket and the console as sequences. */
  method Connect(server: seq<string>, user: seq<Option<string>>) returns (s: Session)
    ensures s == ClientSession(server, user)
  {
    var pos: nat := 0;
    var resp := ReadLine(server, pos);
    if resp.Some? {
      pos := pos + 1;
    }
    if resp.Some? && Contains(resp.value, ERR) {
      return Session(Aborted, [], pos);
    }
    var exchanges: seq<Exchange> := [];
    var i := 0;
    while true
      invariant 0 <= i <= |user| && pos <= |server|
      invariant ClientSession(server, user) == After(exchanges, Rounds(server, pos, user[i..]))
      decreases |user| - i
    {
      if i == |user| {
        return Session(InputExhausted, exchanges, pos);
      }
      var input := user[i];
      if input == Some(QUIT) {
        return Session(Quit, exchanges, pos);
      }
      var request := Outgoing(input);
      RoundsStep(server, pos, user[i..]);
      assert user[i..][1..] == user[i + 1..];
      var replies;
      replies, pos := ReadReplies(server, pos);
      exchanges := exchanges + [Exchange(request, replies)];
      i := i + 1;
    }
  }

  /**
   * The inner loop reads exactly the lines up to the first blank one at or
   * after `pos`, and that blank line, which it does not keep.
   */
  lemma {:induction false} ResponseEndsAtFirstBlank(server: seq<string>, pos: nat, j: nat)
    requires pos <= j < |server| && server[j] == BLANK && BLANK !in server[pos..j]
    ensures ReadResponse(server, pos) == Response(server[pos..j], j + 1)
    decreases j - pos
  {
    if pos < j {
      assert server[pos] in server[pos..j];
      assert server[pos + 1..j] == server[pos..j][1..];
      ResponseEndsAtFirstBlank(server, pos + 1, j);
      assert server[pos..j] == [server[pos]] + server[pos + 1..j];
    }
  }

  /** Without a blank line the inner loop reads to the end of the stream. */
  lemma {:induction false} ResponseRunsToEnd(server: seq<string>, pos: nat)
    requires pos <= |server| && BLANK !in server[pos..]
    ensures ReadResponse(server, pos) == Response(server[pos..], |server|)
    decreases |server| - pos
  {
    if pos < |server| {
      assert server[pos] in server[pos..];
      assert server[pos + 1..] == server[pos..][1..];
      ResponseRunsToEnd(server, pos + 1);
      assert server[pos..] == [server[pos]] + server[pos + 1..];
    }
  }

  /** A refused client prints the handshake line and sends nothing. */
  lemma AbortOnErr(server: seq<string>, user: seq<Option<string>>)
    requires |server| > 0 && Contains(server[0], ERR)
    ensures ClientSession(server, user) == Session(Aborted, [], 1)
  {
  }

  /**
   * Typing quit ends the session at once: the lines typed before it are
   * sent, in order, and quit itself and everything after it are not.
   */
  lemma {:induction false} QuitEndsSession(server: seq<string>, pos: nat, before: seq<Option<string>>, after: seq<Option<string>>)
    requires pos <= |server| && Some(QUIT) !in before
    ensures var s := Rounds(server, pos, before + [Some(QUIT)] + after);
      && s.outcome == Quit
      && |s.exchanges| == |before|
      && forall k :: 0 <= k < |before| ==> s.exchanges[k].request == Outgoing(before[k])
    decreases |before|
  {
    var user := before + [Some(QUIT)] + after;
    if before == [] {
      assert user[0] == Some(QUIT);
    } else {
      assert user[0] == before[0];
      assert user[1..] == before[1..] + [Some(QUIT)] + after;
      assert Some(QUIT) !in before[1..];
      var response := ReadResponse(server, pos);
      QuitEndsSession(server, response.next, before[1..], after);
      var s := Rounds(server, pos, user);
      var rest := Rounds(server, response.next, user[1..]);
      assert s.exchanges == [Exchange(Outgoing(before[0]), response.replies)] + rest.exchanges;
      forall k | 1 <= k < |before| ensures s.exchanges[k].request == Outgoing(before[k]) {
        assert s.exchanges[k] == rest.exchanges[k - 1];
        assert before[1..][k - 1] == before[k];
      }
    }
  }

  /**
   * The end of standard input is not quit: every null read sends "null" and
   * the session goes on.
   */
  lemma {:induction false} EndOfInputIsNotQuit(server: seq<string>, pos: nat, n: nat)
    requires pos <= |server|
    ensures var s := Rounds(server, pos, seq(n, _ => None));
      && s.outcome == InputExhausted
      && |s.exchanges| == n
      && forall k :: 0 <= k < n ==> s.exchanges[k].request == "null"
    decreases n
  {
    if n > 0 {
      var user: seq<Option<string>> := seq(n, _ => None);
      assert user[1..] == seq(n - 1, _ => None);
      var response := ReadResponse(server, pos);
      EndOfInputIsNotQuit(server, response.next, n - 1);
      var s := Rounds(server, pos, user);
      var rest := Rounds(server, response.next, user[1..]);
      assert s.exchanges == [Exchange("null", response.replies)] + rest.exchanges;
      forall k | 1 <= k < n ensures s.exchanges[k].request == "null" {
        assert s.exchanges[k] == rest.exchanges[k - 1];
      }
    }
  }
}

/** IRequestProcessor and its default implementation, EchoRequestProcessor. */
module Processors {
  import opened Text

  const ECHO_PREFIX: string := "(Echo) "

  /**
   * A request processor: the echo processor the server installs by default, or
   * any other implementation, given as the function it computes.
   */
  datatype Processor = Echo | Custom(respond: string -> string)

  /** onProcessRequest */
  function Process(p: Processor, request: string): (response: string)
    ensures p.Echo? ==> |response| == |ECHO_PREFIX| + |request|
    ensures p.Echo? ==> response[..|ECHO_PREFIX|] == ECHO_PREFIX && response[|ECHO_PREFIX|..] == request
  {
    match p
    case Echo => ECHO_PREFIX + request
    case Custom(respond) => respond(request)
  }

  /**
   * A processor whose every answer is one line and not the empty line: println
   * then writes it as exactly one line, never a blank one, which the client
   * would read as "end of response".  The echo processor answers a request
   * that is one line with one line.
   */
  ghost predicate NeverBlank(p: Processor)
  {
    match p
    case Echo => true
    case Custom(respond) => forall request {:trigger OneLine(respond(request))} :: OneLine(respond(request))
  }

  /** An answer println writes as one line that is not blank. */
  ghost predicate OneLine(response: string)
  {
    response != "" && SingleLine(response)
  }

  lemma EchoNeverBlank(request: string)
    ensures Process(Echo, request) != ""
    ensures NeverBlank(Echo)
  {
  }

  /** The default processor's answer to "hello". */
  lemma EchoHello()
    ensures Process(Echo, "hello") == "(Echo) hello"
  {
  }

  lemma NeverBlankProcess(p: Processor, request: string)
    requires NeverBlank(p)
    ensures Process(p, request) != ""
  {
    if p.Custom? {
      assert OneLine(p.respond(request));
    }
  }

  /** Such a processor answers a request that is one line with exactly one line. */
  lemma NeverBlankOneLine(p: Processor, request: string)
    requires NeverBlank(p) && SingleLine(request)
    ensures SingleLine(Process(p, request))
  {
    if p.Custom? {
      assert OneLine(p.respond(request));
    } else {
      var r := Process(p, request);
      assert r == ECHO_PREFIX + request;
      forall i | 0 <= i < |r| ensures r[i] != '\n' && r[i] != '\r' {
        if i < |ECHO_PREFIX| {
          assert r[i] == ECHO_PREFIX[i];
        } else {
          assert r[i] == request[i - |ECHO_PREFIX|];
        }
      }
    }
  }
}

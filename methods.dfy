/**
 * HTTP request methods: the transport's command codes, the server's own
 * method enumeration, and the two case functions that translate between them
 * (HTTPRequest::GetRequestMethod and RequestMethodString).
 */
module Methods {

  /** The request command codes the transport reports (libevent's evhttp_cmd_type). */
  datatype Command =
    | ReqGet | ReqPost | ReqHead | ReqPut | ReqDelete
    | ReqOptions | ReqTrace | ReqConnect | ReqPatch

  /** The server's request-method enumeration. */
  datatype RequestMethod = GET | POST | HEAD | PUT | OPTIONS | UNKNOWN

  /** The method token of each command on the wire (section 4.3 of RFC 7231, section 2 of RFC 5789). */
  function CommandToken(c: Command): string
  {
    match c
    case ReqGet => "GET"
    case ReqPost => "POST"
    case ReqHead => "HEAD"
    case ReqPut => "PUT"
    case ReqDelete => "DELETE"
    case ReqOptions => "OPTIONS"
    case ReqTrace => "TRACE"
    case ReqConnect => "CONNECT"
    case ReqPatch => "PATCH"
  }

  /**
   * Does the transport let the command through to the request callback? It
   * is told to allow six commands: the five the server knows and DELETE.
   * TRACE, CONNECT and PATCH are refused before the server sees them.
   */
  predicate Allowed(c: Command): (b: bool)
    ensures b <==> c in KnownCommands || c == ReqDelete
    ensures !b <==> c in {ReqTrace, ReqConnect, ReqPatch}
  {
    match c
    case ReqGet | ReqPost | ReqHead | ReqPut | ReqDelete | ReqOptions => true
    case ReqTrace | ReqConnect | ReqPatch => false
  }

  /** The commands the server has a method value for. */
  const KnownCommands: set<Command> := {ReqGet, ReqPost, ReqHead, ReqPut, ReqOptions}

  /**
   * Maps a transport command to the server's method: five commands have a
   * method of the same name, every other command is UNKNOWN.
   */
  function GetRequestMethod(c: Command): (m: RequestMethod)
    ensures m != UNKNOWN <==> c in KnownCommands
    ensures m != UNKNOWN ==> RequestMethodString(m) == CommandToken(c)
  {
    match c
    case ReqGet => GET
    case ReqPost => POST
    case ReqHead => HEAD
    case ReqPut => PUT
    case ReqOptions => OPTIONS
    case _ => UNKNOWN
  }

  /** The name of a method, used in log lines: "unknown" for UNKNOWN. */
  function RequestMethodString(m: RequestMethod): (s: string)
    ensures s == "unknown" <==> m == UNKNOWN
    ensures m != UNKNOWN ==> exists c :: c in KnownCommands && CommandToken(c) == s
  {
    match m
    case GET => "GET"
    case POST => "POST"
    case HEAD => "HEAD"
    case PUT => "PUT"
    case OPTIONS => "OPTIONS"
    case UNKNOWN => "unknown"
  }

  /** Distinct methods have distinct names, so the log name identifies the method. */
  lemma RequestMethodStringInjective(m1: RequestMethod, m2: RequestMethod)
    ensures RequestMethodString(m1) == RequestMethodString(m2) ==> m1 == m2
  {
  }

  /**
   * The transport lets DELETE through, but the server has no method for it:
   * DELETE is the one allowed command that the server treats as UNKNOWN.
   */
  lemma AllowedButUnknown(c: Command)
    ensures Allowed(c) && GetRequestMethod(c) == UNKNOWN <==> c == ReqDelete
  {
  }
}

/**
 * The table of path handlers (pathHandlers, RegisterHTTPHandler,
 * UnregisterHTTPHandler) and the route lookup of the request callback.
 * Handlers are opaque values of a type parameter H.
 */
module PathHandlers {
  import opened Basics

  /** One registration: a URI prefix, whether it must match exactly, and the handler. */
  datatype Entry<H> = Entry(prefix: string, exactMatch: bool, handler: H)

  /** The result of a lookup: the position of the entry, its handler and the sub-path. */
  datatype Route<H> = Route(index: nat, handler: H, path: string)

  /**
   * `std::string::substr(pos, n)`: at most n characters from position pos
   * (a position beyond the end would throw; callers never pass one).
   */
  function Substr(s: string, pos: nat, n: nat): (r: string)
    requires pos <= |s|
    ensures |r| == if pos + n <= |s| then n else |s| - pos
    ensures forall k :: 0 <= k < |r| ==> r[k] == s[pos + k]
  {
    s[pos .. if pos + n <= |s| then pos + n else |s|]
  }

  /**
   * Does the entry match the URI? An exact entry compares the whole URI; a
   * prefix entry compares the first |prefix| characters of the URI, which
   * holds exactly when the prefix starts the URI.
   */
  predicate Matches<H>(e: Entry<H>, uri: string): (b: bool)
    ensures b <==> if e.exactMatch then uri == e.prefix else e.prefix <= uri
  {
    if e.exactMatch then uri == e.prefix
    else
      var head := Substr(uri, 0, |e.prefix|);
      assert e.prefix <= uri ==> head == uri[..|e.prefix|];
      head == e.prefix
  }

  /** The position of the first entry, in registration order, that matches the URI. */
  function FirstMatch<H>(entries: seq<Entry<H>>, uri: string): (r: Option<nat>)
    ensures r.Some? ==> r.value < |entries| && Matches(entries[r.value], uri)
    ensures r.Some? ==> forall j :: 0 <= j < r.value ==> !Matches(entries[j], uri)
    ensures r.None? <==> forall j :: 0 <= j < |entries| ==> !Matches(entries[j], uri)
  {
    if entries == [] then None
    else if Matches(entries[0], uri) then Some(0)
    else
      match FirstMatch(entries[1..], uri)
      case None => None
      case Some(k) => Some(k + 1)
  }

  /** The route the request callback finds for a URI, if any. */
  function RouteFor<H>(entries: seq<Entry<H>>, uri: string): (r: Option<Route<H>>)
    ensures r.None? <==> forall j :: 0 <= j < |entries| ==> !Matches(entries[j], uri)
    ensures r.Some? ==> (
      && r.value.index < |entries|
      && Matches(entries[r.value.index], uri)
      && (forall j :: 0 <= j < r.value.index ==> !Matches(entries[j], uri))
      && r.value.handler == entries[r.value.index].handler
      && entries[r.value.index].prefix + r.value.path == uri
      && (entries[r.value.index].exactMatch ==> r.value.path == ""))
  {
    match FirstMatch(entries, uri)
    case None => None
    case Some(i) =>
      var path := uri[|entries[i].prefix|..];
      assert entries[i].prefix + path == uri;
      Some(Route(i, entries[i].handler, path))
  }

  /** The position of the first entry registered under (prefix, exactMatch). */
  function FindKey<H>(entries: seq<Entry<H>>, prefix: string, exactMatch: bool): (r: Option<nat>)
    ensures r.Some? ==> (r.value < |entries|
      && entries[r.value].prefix == prefix && entries[r.value].exactMatch == exactMatch)
    ensures r.Some? ==> forall j :: 0 <= j < r.value ==>
      !(entries[j].prefix == prefix && entries[j].exactMatch == exactMatch)
    ensures r.None? <==> forall j :: 0 <= j < |entries| ==>
      !(entries[j].prefix == prefix && entries[j].exactMatch == exactMatch)
  {
    if entries == [] then None
    else if entries[0].prefix == prefix && entries[0].exactMatch == exactMatch then Some(0)
    else
      match FindKey(entries[1..], prefix, exactMatch)
      case None => None
      case Some(k) => Some(k + 1)
  }

  /**
   * The table after unregistering (prefix, exactMatch): the first entry with
   * that key is removed and the others keep their order; without such an
   * entry the table is unchanged.
   */
  function Unregistered<H>(entries: seq<Entry<H>>, prefix: string, exactMatch: bool): (r: seq<Entry<H>>)
    ensures FindKey(entries, prefix, exactMatch).None? ==> r == entries
    ensures FindKey(entries, prefix, exactMatch).Some? ==>
      var i := FindKey(entries, prefix, exactMatch).value;
      |r| == |entries| - 1
      && (forall j :: 0 <= j < i ==> r[j] == entries[j])
      && (forall j :: i <= j < |r| ==> r[j] == entries[j + 1])
  {
    match FindKey(entries, prefix, exactMatch)
    case None => entries
    case Some(i) => entries[..i] + entries[i + 1..]
  }

  // ---- Lemmas relating registration and lookup.

  /** The first matching position is the one FirstMatch finds. */
  lemma FirstMatchIs<H>(entries: seq<Entry<H>>, uri: string, i: nat)
    requires i < |entries| && Matches(entries[i], uri)
    requires forall j :: 0 <= j < i ==> !Matches(entries[j], uri)
    ensures FirstMatch(entries, uri) == Some(i)
  {
  }

  /** The first position with the key is the one FindKey finds. */
  lemma FindKeyIs<H>(entries: seq<Entry<H>>, prefix: string, exactMatch: bool, i: nat)
    requires i < |entries| && entries[i].prefix == prefix && entries[i].exactMatch == exactMatch
    requires forall j :: 0 <= j < i ==> !(entries[j].prefix == prefix && entries[j].exactMatch == exactMatch)
    ensures FindKey(entries, prefix, exactMatch) == Some(i)
  {
  }

  lemma {:induction false} FirstMatchAppend<H>(entries: seq<Entry<H>>, e: Entry<H>, uri: string)
    ensures FirstMatch(entries + [e], uri) ==
      if FirstMatch(entries, uri).Some? then FirstMatch(entries, uri)
      else if Matches(e, uri) then Some(|entries|) else None
  {
    var all := entries + [e];
    assert forall j :: 0 <= j < |entries| ==> all[j] == entries[j];
    match FirstMatch(entries, uri)
    case Some(i) => FirstMatchIs(all, uri, i);
    case None =>
      if Matches(e, uri) {
        FirstMatchIs(all, uri, |entries|);
      }
  }

  lemma {:induction false} FindKeyAppend<H>(entries: seq<Entry<H>>, e: Entry<H>)
    requires FindKey(entries, e.prefix, e.exactMatch).None?
    ensures FindKey(entries + [e], e.prefix, e.exactMatch) == Some(|entries|)
  {
    var all := entries + [e];
    assert forall j :: 0 <= j < |entries| ==> all[j] == entries[j];
    FindKeyIs(all, e.prefix, e.exactMatch, |entries|);
  }

  /**
   * First match wins: registering a new entry never changes the route of a
   * URI that already had one.
   */
  lemma RegisterKeepsRoutes<H>(entries: seq<Entry<H>>, e: Entry<H>, uri: string)
    requires RouteFor(entries, uri).Some?
    ensures RouteFor(entries + [e], uri) == RouteFor(entries, uri)
  {
    FirstMatchAppend(entries, e, uri);
    var i := FirstMatch(entries, uri).value;
    assert (entries + [e])[i] == entries[i];
  }

  /** A URI without a route is routed to a newly registered entry that matches it. */
  lemma RegisterAddsRoute<H>(entries: seq<Entry<H>>, e: Entry<H>, uri: string)
    requires RouteFor(entries, uri).None? && Matches(e, uri)
    ensures RouteFor(entries + [e], uri) == Some(Route(|entries|, e.handler, uri[|e.prefix|..]))
  {
    FirstMatchAppend(entries, e, uri);
    assert (entries + [e])[|entries|] == e;
  }

  /** Unregistering right after registering a new key gives back the original table. */
  lemma UnregisterUndoesRegister<H>(entries: seq<Entry<H>>, prefix: string, exactMatch: bool, h: H)
    requires FindKey(entries, prefix, exactMatch).None?
    ensures Unregistered(entries + [Entry(prefix, exactMatch, h)], prefix, exactMatch) == entries
  {
    var e := Entry(prefix, exactMatch, h);
    FindKeyAppend(entries, e);
    assert (entries + [e])[..|entries|] == entries;
  }

  /** Routing with an exact "/status" entry registered before a prefix "/rest/" entry. */
  lemma RoutingExamples<H>(status: H, rest: H)
    ensures var table := [Entry("/status", true, status), Entry("/rest/", false, rest)];
      && RouteFor(table, "/status") == Some(Route(0, status, ""))
      && RouteFor(table, "/rest/headers/5") == Some(Route(1, rest, "headers/5"))
      && RouteFor(table, "/unknown").None?
      && RouteFor(table, "/status/x").None?
  {
    var table := [Entry("/status", true, status), Entry("/rest/", false, rest)];
    assert Substr("/status", 0, 6) != "/rest/" by { assert Substr("/status", 0, 6)[1] == 's'; }
    assert Substr("/rest/headers/5", 0, 6) == "/rest/";
    assert "/rest/headers/5"[6..] == "headers/5";
    assert "/rest/headers/5" != "/status" by { assert "/rest/headers/5"[1] == 'r'; }
    FirstMatchIs(table, "/rest/headers/5", 1);
    assert Substr("/unknown", 0, 6) != "/rest/" by { assert Substr("/unknown", 0, 6)[1] == 'u'; }
    assert Substr("/status/x", 0, 6) != "/rest/" by { assert Substr("/status/x", 0, 6)[1] == 's'; }
    assert "/status/x" != "/status" by { assert |"/status/x"| == 9; }
    assert "/unknown" != "/status" by { assert "/unknown"[1] == 'u'; }
  }

  /** The handler table object (the `pathHandlers` vector). */
  class HandlerTable<H> {
    var entries: seq<Entry<H>>

    constructor ()
      ensures entries == []
    {
      entries := [];
    }

    /** RegisterHTTPHandler: appends the entry at the end. */
    method Register(prefix: string, exactMatch: bool, handler: H)
      modifies this
      ensures entries == old(entries) + [Entry(prefix, exactMatch, handler)]
    {
      entries := entries + [Entry(prefix, exactMatch, handler)];
    }

    /** UnregisterHTTPHandler: searches for the first entry with the key and erases it. */
    method Unregister(prefix: string, exactMatch: bool)
      modifies this
      ensures entries == Unregistered(old(entries), prefix, exactMatch)
    {
      var i := 0;
      while i < |entries|
        invariant 0 <= i <= |entries|
        invariant forall j :: 0 <= j < i ==>
          !(entries[j].prefix == prefix && entries[j].exactMatch == exactMatch)
      {
        if entries[i].prefix == prefix && entries[i].exactMatch == exactMatch {
          break;
        }
        i := i + 1;
      }
      if i < |entries| {
        FindKeyIs(entries, prefix, exactMatch, i);
        entries := entries[..i] + entries[i + 1..];
      }
    }

    /** The lookup loop of the request callback: first match in registration order. */
    method Resolve(uri: string) returns (r: Option<Route<H>>)
      ensures r == RouteFor(entries, uri)
    {
      var i := 0;
      while i < |entries|
        invariant 0 <= i <= |entries|
        invariant forall j :: 0 <= j < i ==> !Matches(entries[j], uri)
      {
        var e := entries[i];
        var match_ := if e.exactMatch then uri == e.prefix else Substr(uri, 0, |e.prefix|) == e.prefix;
        if match_ {
          FirstMatchIs(entries, uri, i);
          var path := Substr(uri, |e.prefix|, |uri|);
          assert path == uri[|e.prefix|..];
          return Some(Route(i, e.handler, path));
        }
        i := i + 1;
      }
      return None;
    }
  }
}

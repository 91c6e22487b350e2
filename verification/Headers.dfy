/** The header passes of the reverse proxy: hop-by-hop fields are stripped from what is forwarded (section 6.1 of
    RFC 7230), and the few fields the proxy speaks for itself are put back. */
module Headers {
  import opened Common
  import opened Text

  /** Values of a field; a field may be present with no list at all. */
  datatype Values = Nil | List(values: seq<string>)

  type Fields = map<string, Values>

  const HOP_HEADERS: seq<string> :=
    ["Connection", "Proxy-Connection", "Keep-Alive", "Proxy-Authenticate", "Proxy-Authorization", "Te", "Trailer",
     "Transfer-Encoding", "Upgrade"]

  const FORWARDED := "X-Forwarded-For"

  // ---------------------------------------------------------------- library text operations

  predicate TokenChar(c: char) {
    'a' <= c <= 'z' || 'A' <= c <= 'Z' || '0' <= c <= '9' || c == '-' || c in "!#$%&'*+.^_`|~"
  }

  function Upper(c: char): char {
    if 'a' <= c <= 'z' then c - 32 as char else c
  }

  function CanonicalChar(s: string, i: nat): char
    requires i < |s|
  {
    if i == 0 || s[i - 1] == '-' then Upper(s[i]) else Lower(s[i])
  }

  /** Canonical spelling of a field name; a name with a character that no field name may hold is left alone. */
  function CanonicalKey(s: string): string {
    if forall c :: c in s ==> TokenChar(c) then seq(|s|, i requires 0 <= i < |s| => CanonicalChar(s, i)) else s
  }

  function TrimLeft(s: string, blanks: string): string {
    if s != "" && s[0] in blanks then TrimLeft(s[1..], blanks) else s
  }

  function TrimRight(s: string, blanks: string): string {
    if s != "" && s[|s| - 1] in blanks then TrimRight(s[..|s| - 1], blanks) else s
  }

  function Trim(s: string, blanks: string): string {
    TrimRight(TrimLeft(s, blanks), blanks)
  }

  /** Trimming takes the blanks off both ends and nothing else. */
  lemma TrimExactly(s: string, blanks: string) returns (i: nat)
    ensures var t := Trim(s, blanks);
            && i + |t| <= |s| && s[i..i + |t|] == t
            && (forall j :: 0 <= j < i || i + |t| <= j < |s| ==> s[j] in blanks)
            && (t != "" ==> t[0] !in blanks && t[|t| - 1] !in blanks)
  {
    i := TrimLeftExactly(s, blanks);
    TrimRightExactly(TrimLeft(s, blanks), blanks);
  }

  lemma {:induction false} TrimLeftExactly(s: string, blanks: string) returns (i: nat)
    ensures i <= |s| && TrimLeft(s, blanks) == s[i..] && (forall j :: 0 <= j < i ==> s[j] in blanks)
    ensures i < |s| ==> s[i] !in blanks
  {
    i := 0;
    if s != "" && s[0] in blanks {
      var k := TrimLeftExactly(s[1..], blanks);
      i := k + 1;
      assert forall j :: 0 < j < i ==> s[j] == s[1..][j - 1];
    }
  }

  lemma {:induction false} TrimRightExactly(s: string, blanks: string)
    ensures var t := TrimRight(s, blanks);
            t <= s && (forall j :: |t| <= j < |s| ==> s[j] in blanks) && (t != "" ==> t[|t| - 1] !in blanks)
  {
    if s != "" && s[|s| - 1] in blanks { TrimRightExactly(s[..|s| - 1], blanks); }
  }

  const BLANKS := " \t\n\r"

  predicate Printable(s: string) {
    forall i :: 0 <= i < |s| ==> ' ' <= s[i] <= '~'
  }

  /** Whether one of the comma-separated lists holds the token, ignoring case. */
  predicate ContainsToken(values: seq<string>, token: string) {
    exists v, piece :: v in values && piece in Split(v, ',') && EqualFold(Trim(piece, " \t"), token)
  }

  function ValuesOf(h: Fields, key: string): seq<string> {
    if key in h && h[key].List? then h[key].values else []
  }

  function JoinWith(parts: seq<string>, separator: string): string {
    if |parts| == 0 then ""
    else if |parts| == 1 then parts[0]
    else parts[0] + separator + JoinWith(parts[1..], separator)
  }

  // ---------------------------------------------------------------- what the passes are to achieve

  /** Field names that comma-separated pieces name. */
  function NamesIn(pieces: seq<string>): set<string> {
    set piece | piece in pieces && Trim(piece, BLANKS) != "" :: CanonicalKey(Trim(piece, BLANKS))
  }

  function NamesOf(values: seq<string>): set<string> {
    set v, name | v in values && name in NamesIn(Split(v, ',')) :: name
  }

  /** The fields a message declares to be meant for the next hop only. */
  function Named(h: Fields): set<string> {
    NamesOf(ValuesOf(h, "Connection"))
  }

  function HopSet(): set<string> {
    set k | k in HOP_HEADERS
  }

  function Stripped(h: Fields): Fields {
    h - Named(h) - HopSet()
  }

  /** Protocol the client asks to switch to, or none. */
  function UpgradeType(h: Fields): string {
    if ContainsToken(ValuesOf(h, "Connection"), "Upgrade") && |ValuesOf(h, "Upgrade")| > 0
    then ValuesOf(h, "Upgrade")[0] else ""
  }

  /** Value of field `k` of the forwarded request, when it has one: `h` is the header as the director left it,
      `te` the client's own Te values, `client` its address. */
  function Forwarded(h: Fields, te: seq<string>, client: Option<string>, k: string): Option<Values> {
    var kept := if k in h && k !in Named(h) && k !in HOP_HEADERS then Some(h[k]) else None;
    if k == "Te" && ContainsToken(te, "trailers") then Some(List(["trailers"]))
    else if k == "Connection" && UpgradeType(h) != "" then Some(List(["Upgrade"]))
    else if k == "Upgrade" && UpgradeType(h) != "" then Some(List([UpgradeType(h)]))
    else if k == FORWARDED && client.Some? && kept != Some(Nil) then
      var prior := if kept.Some? then kept.value.values else [];
      Some(List([JoinWith(prior + [client.value], ", ")]))
    else kept
  }

  function Lookup(h: Fields, k: string): Option<Values> {
    if k in h then Some(h[k]) else None
  }

  // ---------------------------------------------------------------- the passes

  lemma Spelled(k: string)
    requires forall i :: 0 <= i < |k| ==> CanonicalChar(k, i) == k[i]
    ensures CanonicalKey(k) == k
  {}

  lemma SpelledPlain()
    ensures CanonicalKey("Connection") == "Connection" && CanonicalKey("Te") == "Te"
    ensures CanonicalKey("Trailer") == "Trailer" && CanonicalKey("Upgrade") == "Upgrade"
    ensures CanonicalKey("Keep-Alive") == "Keep-Alive" && CanonicalKey(FORWARDED) == FORWARDED
  {
    hide CanonicalKey;
    Spelled("Connection");
    Spelled("Te");
    Spelled("Trailer");
    Spelled("Upgrade");
    Spelled("Keep-Alive");
    Spelled(FORWARDED);
  }

  lemma SpelledProxy()
    ensures CanonicalKey("Proxy-Connection") == "Proxy-Connection"
    ensures CanonicalKey("Transfer-Encoding") == "Transfer-Encoding"
  {
    hide CanonicalKey;
    Spelled("Proxy-Connection");
    Spelled("Transfer-Encoding");
  }

  lemma SpelledAuthentication()
    ensures CanonicalKey("Proxy-Authenticate") == "Proxy-Authenticate"
    ensures CanonicalKey("Proxy-Authorization") == "Proxy-Authorization"
  {
    hide CanonicalKey;
    Spelled("Proxy-Authenticate");
    Spelled("Proxy-Authorization");
  }

  /** The names the passes use are spelled canonically, so they reach the fields a client sent. */
  lemma HopHeadersAreCanonical(k: string)
    requires k in HOP_HEADERS || k == FORWARDED
    ensures CanonicalKey(k) == k
  {
    hide CanonicalKey;
    SpelledPlain();
    SpelledProxy();
    SpelledAuthentication();
  }

  /** Field names are told apart up to case: deleting or setting one reaches every spelling of it, and no other field. */
  lemma CaseDoesNotMatter(a: string, b: string)
    requires forall c :: c in a + b ==> TokenChar(c)
    ensures CanonicalKey(a) == CanonicalKey(b) <==> EqualFold(a, b)
  {
    assert forall c :: c in a ==> c in a + b;
    assert forall c :: c in b ==> c in a + b;
    if EqualFold(a, b) {
      SameSpelling(a, b);
    } else if |a| == |b| {
      var i :| 0 <= i < |a| && Lower(a[i]) != Lower(b[i]);
      LowerOfCanonical(a, i);
      LowerOfCanonical(b, i);
      assert CanonicalKey(a)[i] == CanonicalChar(a, i) && CanonicalKey(b)[i] == CanonicalChar(b, i);
    }
  }

  lemma LowerOfCanonical(s: string, i: nat)
    requires i < |s|
    ensures Lower(CanonicalChar(s, i)) == Lower(s[i])
  {}

  lemma SameSpelling(a: string, b: string)
    requires (forall c :: c in a ==> TokenChar(c)) && (forall c :: c in b ==> TokenChar(c)) && EqualFold(a, b)
    ensures CanonicalKey(a) == CanonicalKey(b)
  {
    hide CanonicalChar;
    assert |ToLower(a)| == |a| && |ToLower(b)| == |b|;
    forall i | 0 <= i < |a| ensures CanonicalChar(a, i) == CanonicalChar(b, i) {
      assert ToLower(a)[i] == ToLower(b)[i] && (i > 0 ==> ToLower(a)[i - 1] == ToLower(b)[i - 1]);
      SameSpellingAt(a, b, i);
    }
  }

  lemma SameSpellingAt(a: string, b: string, i: nat)
    requires i < |a| && i < |b| && Lower(a[i]) == Lower(b[i]) && (i > 0 ==> Lower(a[i - 1]) == Lower(b[i - 1]))
    ensures CanonicalChar(a, i) == CanonicalChar(b, i)
  {}

  lemma {:induction false} JoinWithLast(parts: seq<string>, last: string, separator: string)
    requires |parts| > 0
    ensures JoinWith(parts + [last], separator) == JoinWith(parts, separator) + separator + last
  {
    if |parts| == 1 {
      assert (parts + [last])[1..] == [last];
    } else {
      assert (parts + [last])[1..] == parts[1..] + [last];
      JoinWithLast(parts[1..], last, separator);
    }
  }

  lemma BlankInFront(tail: string)
    ensures Split(" " + tail, ',') == [" " + Split(tail, ',')[0]] + Split(tail, ',')[1..]
  {
    assert (" " + tail)[1..] == tail;
  }

  /** The addresses of a folded list can be told apart again: earlier ones are all there, in order, and the last one is last. */
  lemma {:induction false} ChainOfAddresses(parts: seq<string>)
    requires |parts| > 0 && forall p :: p in parts ==> ',' !in p
    ensures var entries := Split(JoinWith(parts, ", "), ',');
            && |entries| == |parts|
            && forall i :: 0 <= i < |parts| ==> entries[i] == (if i == 0 then "" else " ") + parts[i]
  {
    hide Split;
    SplitOne(parts[0], ',');
    if |parts| > 1 {
      assert forall p :: p in parts[1..] ==> p in parts;
      ChainOfAddresses(parts[1..]);
      SplitFolded(parts[0], JoinWith(parts[1..], ", "));
      hide JoinWith;
    }
  }

  lemma SplitFolded(head: string, tail: string)
    requires ',' !in head
    ensures Split(head + ", " + tail, ',') == [head] + ([" " + Split(tail, ',')[0]] + Split(tail, ',')[1..])
  {
    hide Split;
    SplitOne(head, ',');
    BlankInFront(tail);
    SplitAppend(head, ',', " " + tail);
    assert head + ", " + tail == head + [','] + (" " + tail);
  }

  lemma BlankTrimmed(p: string, blanks: string)
    requires ' ' in blanks
    ensures Trim(" " + p, blanks) == Trim(p, blanks)
  {
    assert (" " + p)[1..] == p;
  }

  /** A list that is written out in one field, with commas and blanks, holds the tokens that were put into it. */
  lemma TokensReadBack(parts: seq<string>, token: string)
    requires |parts| > 0 && forall p :: p in parts ==> ',' !in p
    ensures ContainsToken([JoinWith(parts, ", ")], token) <==> exists p :: p in parts && EqualFold(Trim(p, " \t"), token)
  {
    hide JoinWith, Split, Trim, EqualFold;
    var text := JoinWith(parts, ", ");
    var entries := Split(text, ',');
    ChainOfAddresses(parts);
    forall i | 0 <= i < |parts| ensures Trim(entries[i], " \t") == Trim(parts[i], " \t") {
      BlankTrimmed(parts[i], " \t");
      assert "" + parts[i] == parts[i];
    }
    assert text in [text];
    if p :| p in parts && EqualFold(Trim(p, " \t"), token) {
      var i :| 0 <= i < |parts| && parts[i] == p;
      assert entries[i] in entries;
    }
    if ContainsToken([text], token) {
      var v, piece :| v in [text] && piece in Split(v, ',') && EqualFold(Trim(piece, " \t"), token);
      var i :| 0 <= i < |entries| && entries[i] == piece;
      assert parts[i] in parts;
    }
  }

  /** The piece of a Connection field names the field. */
  predicate Names(piece: string, name: string) {
    Trim(piece, BLANKS) != "" && name == CanonicalKey(Trim(piece, BLANKS))
  }

  lemma NamedByPieces(text: string, name: string)
    ensures name in NamesOf([text]) <==> exists piece :: piece in Split(text, ',') && Names(piece, name)
  {
    hide Split, Names;
    assert text in [text];
    NamedInPieces(Split(text, ','), name);
    if name in NamesOf([text]) {
      var v :| v in [text] && name in NamesIn(Split(v, ','));
    }
  }

  lemma NamedInPieces(pieces: seq<string>, name: string)
    ensures name in NamesIn(pieces) <==> exists piece :: piece in pieces && Names(piece, name)
  {
    hide Trim, CanonicalKey;
    if piece :| piece in pieces && Names(piece, name) {
      assert name in NamesIn(pieces);
    }
    if name in NamesIn(pieces) {
      var piece :| piece in pieces && Trim(piece, BLANKS) != "" && name == CanonicalKey(Trim(piece, BLANKS));
      assert Names(piece, name);
    }
  }

  /** The fields that a Connection field names are those that were put into it, in their canonical spelling. */
  lemma NamesReadBack(parts: seq<string>, name: string)
    requires |parts| > 0 && forall p :: p in parts ==> ',' !in p
    ensures name in NamesOf([JoinWith(parts, ", ")]) <==>
              exists p :: p in parts && Trim(p, BLANKS) != "" && name == CanonicalKey(Trim(p, BLANKS))
  {
    hide JoinWith, Split, Trim, CanonicalKey, NamesOf;
    var entries := Split(JoinWith(parts, ", "), ',');
    NamedByPieces(JoinWith(parts, ", "), name);
    ChainOfAddresses(parts);
    forall i | 0 <= i < |parts| ensures Names(entries[i], name) == Names(parts[i], name) {
      BlankTrimmed(parts[i], BLANKS);
      assert "" + parts[i] == parts[i];
    }
    if p :| p in parts && Names(p, name) {
      var i :| 0 <= i < |parts| && parts[i] == p;
      assert entries[i] in entries;
    }
    if piece :| piece in entries && Names(piece, name) {
      var i :| 0 <= i < |entries| && entries[i] == piece;
      assert parts[i] in parts;
    }
  }

  lemma JoinWithOne(last: string, separator: string)
    ensures JoinWith([] + [last], separator) == last
  {}

  function WithOwnFields(h: Fields, te: seq<string>, upgrade: string): Fields {
    var h1 := if ContainsToken(te, "trailers") then h["Te" := List(["trailers"])] else h;
    if upgrade != "" then h1["Connection" := List(["Upgrade"])]["Upgrade" := List([upgrade])] else h1
  }

  function WithForwardedFor(h: Fields, client: Option<string>): Fields {
    if client.None? || Lookup(h, FORWARDED) == Some(Nil) then h
    else h[FORWARDED := List([JoinWith(ValuesOf(h, FORWARDED) + [client.value], ", ")])]
  }

  lemma ForwardedInSteps(h: Fields, te: seq<string>, client: Option<string>, k: string)
    ensures Lookup(WithForwardedFor(WithOwnFields(Stripped(h), te, UpgradeType(h)), client), k) == Forwarded(h, te, client, k)
  {
    hide UpgradeType, ContainsToken, JoinWith, Named;
    var s := Stripped(h);
    assert k in s <==> k in h && k !in Named(h) && k !in HOP_HEADERS;
    assert FORWARDED in s <==> FORWARDED in h && FORWARDED !in Named(h);
  }

  class Header {
    var fields: Fields

    constructor (fields: Fields)
      ensures this.fields == fields
    {
      this.fields := fields;
    }

    method Del(key: string)
      modifies this
      ensures fields == old(fields) - {CanonicalKey(key)}
    {
      fields := fields - {CanonicalKey(key)};
    }

    method Set(key: string, value: string)
      modifies this
      ensures fields == old(fields)[CanonicalKey(key) := List([value])]
    {
      fields := fields[CanonicalKey(key) := List([value])];
    }

    method RemoveConnectionHeaders()
      modifies this
      ensures fields == old(fields) - Named(old(fields))
    {
      hide CanonicalKey, Trim, Split;
      var values := ValuesOf(fields, "Connection");
      var i := 0;
      while i < |values|
        invariant 0 <= i <= |values|
        invariant fields == old(fields) - NamesOf(values[..i])
      {
        var pieces := Split(values[i], ',');
        var j := 0;
        while j < |pieces|
          invariant 0 <= j <= |pieces|
          invariant fields == old(fields) - NamesOf(values[..i]) - NamesIn(pieces[..j])
        {
          var sf := Trim(pieces[j], BLANKS);
          assert pieces[..j + 1] == pieces[..j] + [pieces[j]];
          if sf != "" {
            Del(sf);
          }
          j := j + 1;
        }
        assert pieces[..j] == pieces;
        assert values[..i + 1] == values[..i] + [values[i]];
        i := i + 1;
      }
      assert values[..i] == values;
    }

    method RemoveHopHeaders()
      modifies this
      ensures fields == old(fields) - HopSet()
    {
      hide CanonicalKey;
      var i := 0;
      while i < |HOP_HEADERS|
        invariant 0 <= i <= |HOP_HEADERS|
        invariant fields == old(fields) - set k | k in HOP_HEADERS[..i]
      {
        HopHeadersAreCanonical(HOP_HEADERS[i]);
        Del(HOP_HEADERS[i]);
        i := i + 1;
      }
      assert HOP_HEADERS[..i] == HOP_HEADERS;
    }

    /** Prepares the header of a response for the client. */
    method Strip()
      modifies this
      ensures forall k :: k in fields <==> k in old(fields) && k !in HOP_HEADERS && k !in Named(old(fields))
      ensures forall k :: k in fields ==> fields[k] == old(fields)[k]
      ensures Named(fields) == {}
    {
      RemoveConnectionHeaders();
      RemoveHopHeaders();
      assert "Connection" in HopSet();
    }

    /** Puts back what the proxy says for itself: trailer support and the upgrade it passes on. */
    method AddOwnFields(te: seq<string>, upgrade: string)
      modifies this
      ensures fields == WithOwnFields(old(fields), te, upgrade)
    {
      hide CanonicalKey, ContainsToken;
      SpelledPlain();
      if ContainsToken(te, "trailers") {
        Set("Te", "trailers");
      }
      if upgrade != "" {
        Set("Connection", "Upgrade");
        Set("Upgrade", upgrade);
      }
    }

    /** Appends the client to the chain of addresses, folding several lists into one; a field without a list is left so. */
    method AddForwardedFor(client: Option<string>)
      modifies this
      ensures fields == WithForwardedFor(old(fields), client)
    {
      hide CanonicalKey, JoinWith;
      SpelledPlain();
      if client.Some? {
        var prior := ValuesOf(fields, FORWARDED);
        var omit := FORWARDED in fields && fields[FORWARDED].Nil?;
        var ip := client.value;
        if |prior| > 0 {
          JoinWithLast(prior, ip, ", ");
          ip := JoinWith(prior, ", ") + ", " + ip;
        } else {
          JoinWithOne(ip, ", ");
        }
        if !omit {
          Set(FORWARDED, ip);
        }
      }
    }

    /** Prepares the header of a request for the backend; false when the client asks for a protocol that is no
        printable text, and nothing is forwarded. */
    method Forward(te: seq<string>, client: Option<string>) returns (ok: bool)
      modifies this
      ensures ok <==> Printable(UpgradeType(old(fields)))
      ensures !ok ==> fields == old(fields)
      ensures ok ==> forall k :: Lookup(fields, k) == Forwarded(old(fields), te, client, k)
      ensures ok ==> forall k :: k !in HOP_HEADERS && k !in Named(old(fields)) && k != FORWARDED ==>
                       Lookup(fields, k) == Lookup(old(fields), k)
    {
      var upgrade := UpgradeType(fields);
      if !Printable(upgrade) {
        return false;
      }
      RemoveConnectionHeaders();
      RemoveHopHeaders();
      AddOwnFields(te, upgrade);
      AddForwardedFor(client);
      forall k ensures Lookup(fields, k) == Forwarded(old(fields), te, client, k) {
        ForwardedInSteps(old(fields), te, client, k);
      }
      return true;
    }
  }

  // ---------------------------------------------------------------- what holds of every forwarded header

  /** A forwarded header. */
  ghost predicate Result(h: Fields, te: seq<string>, client: Option<string>, out: Fields) {
    forall k :: Lookup(out, k) == Forwarded(h, te, client, k)
  }

  /** No hop-by-hop field and no field the client declared for this hop is forwarded, but for the four the proxy writes itself. */
  lemma NothingForTheHopIsForwarded(h: Fields, te: seq<string>, client: Option<string>, out: Fields, k: string)
    requires Result(h, te, client, out)
    requires k in out && (k in HOP_HEADERS || k in Named(h))
    ensures || (k == "Te" && out[k] == List(["trailers"]) && ContainsToken(te, "trailers"))
            || (k == "Connection" && out[k] == List(["Upgrade"]))
            || (k == "Upgrade" && |ValuesOf(h, "Upgrade")| > 0 && out[k] == List([ValuesOf(h, "Upgrade")[0]]))
            || (k == FORWARDED && client.Some? && out[k] == List([client.value]))
  {
    assert Lookup(out, k) == Forwarded(h, te, client, k);
    if k == FORWARDED && client.Some? { JoinWithOne(client.value, ", "); }
  }

  /** What the proxy says for itself is said whenever there is reason to: trailers when the client takes them, and the client's
      own address, behind those that came before it. */
  lemma OwnFieldsAreSent(h: Fields, te: seq<string>, client: Option<string>, out: Fields, prior: seq<string>)
    requires Result(h, te, client, out)
    requires prior == (if FORWARDED in h && FORWARDED !in Named(h) && h[FORWARDED].List? then h[FORWARDED].values else [])
    ensures ContainsToken(te, "trailers") ==> ValuesOf(out, "Te") == ["trailers"]
    ensures !ContainsToken(te, "trailers") ==> "Te" !in out
    ensures var asked := ContainsToken(ValuesOf(h, "Connection"), "Upgrade") && |ValuesOf(h, "Upgrade")| > 0 && ValuesOf(h, "Upgrade")[0] != "";
            && (asked ==> ValuesOf(out, "Connection") == ["Upgrade"] && ValuesOf(out, "Upgrade") == [ValuesOf(h, "Upgrade")[0]])
            && (!asked ==> "Connection" !in out && "Upgrade" !in out)
    ensures client.Some? && !(FORWARDED in h && FORWARDED !in Named(h) && h[FORWARDED].Nil?) ==>
              |ValuesOf(out, FORWARDED)| == 1
              && ((forall p :: p in prior + [client.value] ==> ',' !in p) ==>
                    var entries := Split(ValuesOf(out, FORWARDED)[0], ',');
                    |entries| == |prior| + 1
                    && forall i :: 0 <= i <= |prior| ==> entries[i] == (if i == 0 then "" else " ") + (prior + [client.value])[i])
  {
    hide ContainsToken, Named, Split, JoinWith;
    assert Lookup(out, "Te") == Forwarded(h, te, client, "Te");
    assert Lookup(out, FORWARDED) == Forwarded(h, te, client, FORWARDED);
    assert Lookup(out, "Connection") == Forwarded(h, te, client, "Connection");
    assert Lookup(out, "Upgrade") == Forwarded(h, te, client, "Upgrade");
    if client.Some? && forall p :: p in prior + [client.value] ==> ',' !in p {
      ChainOfAddresses(prior + [client.value]);
    }
  }

  lemma UpgradeToken()
    ensures ContainsToken(["Upgrade"], "Upgrade")
  {
    var v := "Upgrade";
    SplitOne(v, ',');
    assert v in ["Upgrade"] && v in Split(v, ',');
    assert Trim(v, " \t") == v;
  }

  /** Forwarded again by a second proxy, an upgrade request still asks for the same upgrade. */
  lemma UpgradeSurvives(h: Fields, te: seq<string>, client: Option<string>, out: Fields)
    requires Result(h, te, client, out)
    ensures UpgradeType(out) == UpgradeType(h)
  {
    hide ContainsToken, Named;
    assert Lookup(out, "Connection") == Forwarded(h, te, client, "Connection");
    assert Lookup(out, "Upgrade") == Forwarded(h, te, client, "Upgrade");
    if UpgradeType(h) != "" {
      UpgradeToken();
    }
  }
}

/** Hub addresses: built from five fields with optional wildcards, split again by the receiver,
    and matched by the NATS server. */
module Addressing {
  import opened Messages
  import opened Text

  datatype Fields = Fields(msgType: string, agentID: string, thingID: string, name: string, senderID: string)

  function OrElse(s: string, default: string): string {
    if s == "" then default else s
  }

  // ----- building

  /** Separator, wildcard for one field and wildcard for the remainder of an address. */
  datatype AddressTokens = AddressTokens(sep: char, wc: string, rem: string)

  const NatsTokens := AddressTokens('.', "*", ">")

  function Filled(t: AddressTokens, f: Fields): Fields {
    Fields(OrElse(f.msgType, MessageTypeEvent), OrElse(f.agentID, t.wc), OrElse(f.thingID, t.wc),
           OrElse(f.name, t.wc), OrElse(f.senderID, t.rem))
  }

  function Listed(f: Fields): seq<string> {
    [f.msgType, f.agentID, f.thingID, f.name, f.senderID]
  }

  function MakeAddress(t: AddressTokens, f: Fields): string {
    Join(Listed(Filled(t, f)), t.sep)
  }

  function MakeSubject(f: Fields): string {
    var g := Filled(NatsTokens, f);
    g.msgType + "." + g.agentID + "." + g.thingID + "." + g.name + "." + g.senderID
  }

  // ----- splitting

  /** The fields, or None for an address that is incomplete. */
  function SplitParts(parts: seq<string>): Option<Fields> {
    if |parts| < 4 then None
    else Some(Fields(parts[0], parts[1], parts[2], parts[3], if |parts| > 4 then parts[4] else ""))
  }

  function SplitSubject(subject: string): Option<Fields> {
    SplitParts(Split(subject, '.'))
  }

  /** Inbox addresses are short: only their first two fields are read. */
  function SplitAddress(t: AddressTokens, addr: string): Option<Fields> {
    var parts := Split(addr, t.sep);
    if MessageTypeINBOX <= addr then Some(Fields(parts[0], if |parts| >= 2 then parts[1] else "", "", "", ""))
    else SplitParts(parts)
  }

  // ----- NATS subject matching: `*` stands for one token, a final `>` for one or more

  predicate MatchTokens(pattern: seq<string>, subject: seq<string>) {
    if pattern == [] then subject == []
    else if pattern == [">"] then |subject| >= 1
    else subject != [] && (pattern[0] == "*" || pattern[0] == subject[0]) && MatchTokens(pattern[1..], subject[1..])
  }

  predicate Matches(pattern: string, subject: string) {
    MatchTokens(Split(pattern, '.'), Split(subject, '.'))
  }

  /** A name that can be a field of a published subject. */
  predicate Token(s: string) {
    s != "" && '.' !in s && s != "*" && s != ">"
  }

  predicate Published(f: Fields) {
    Token(f.msgType) && Token(f.agentID) && Token(f.thingID) && Token(f.name) && Token(f.senderID)
  }

  /** Each field is a name or is left open. */
  predicate Filter(f: Fields) {
    forall s :: s in Listed(f) ==> s == "" || Token(s)
  }

  // ----- properties

  lemma {:induction false} AddressIsSubject(f: Fields)
    ensures MakeAddress(NatsTokens, f) == MakeSubject(f)
  {
    var g := Filled(NatsTokens, f);
    var all := Listed(g);
    assert all[1..] == [g.agentID, g.thingID, g.name, g.senderID];
    assert all[1..][1..] == [g.thingID, g.name, g.senderID];
    assert all[1..][1..][1..] == [g.name, g.senderID];
    assert all[1..][1..][1..][1..] == [g.senderID];
    assert Join([g.senderID], '.') == g.senderID;
    assert Join([g.name, g.senderID], '.') == g.name + "." + g.senderID;
    assert Join([g.thingID, g.name, g.senderID], '.') == g.thingID + "." + (g.name + "." + g.senderID);
    assert Join(all[1..], '.') == g.agentID + "." + (g.thingID + "." + (g.name + "." + g.senderID));
    assert MakeAddress(NatsTokens, f)
        == g.msgType + "." + (g.agentID + "." + (g.thingID + "." + (g.name + "." + g.senderID)));
  }

  /** An address splits into its five filled fields. */
  lemma {:induction false} AddressParts(t: AddressTokens, f: Fields)
    requires forall s :: s in Listed(Filled(t, f)) ==> t.sep !in s
    ensures Split(MakeAddress(t, f), t.sep) == Listed(Filled(t, f))
  {
    SplitJoin(Listed(Filled(t, f)), t.sep);
  }

  /** Splitting undoes building, for fields that are all present and free of the separator, if
      and only if the message type does not begin with the inbox prefix. */
  lemma {:induction false} SplitInvertsMake(t: AddressTokens, f: Fields)
    requires forall s :: s in Listed(f) ==> s != "" && t.sep !in s
    requires t.sep !in MessageTypeINBOX
    ensures SplitAddress(t, MakeAddress(t, f)) == Some(f) <==> !(MessageTypeINBOX <= f.msgType)
  {
    assert f.msgType in Listed(f) && f.agentID in Listed(f) && f.thingID in Listed(f)
           && f.name in Listed(f) && f.senderID in Listed(f);
    assert Filled(t, f) == f;
    AddressParts(t, f);
    var addr, inbox := MakeAddress(t, f), MessageTypeINBOX;
    assert addr == f.msgType + [t.sep] + Join(Listed(f)[1..], t.sep);
    InboxPrefix(t.sep, f.msgType, Join(Listed(f)[1..], t.sep));
  }

  /** Of an inbox address the type and the agent come back, whatever follows. */
  lemma {:induction false} InboxAddress(t: AddressTokens, msgType: string, agentID: string, rest: string)
    requires "_INBOX" <= msgType && t.sep !in msgType && t.sep !in agentID
    ensures SplitAddress(t, msgType) == Some(Fields(msgType, "", "", "", ""))
    ensures SplitAddress(t, msgType + [t.sep] + agentID) == Some(Fields(msgType, agentID, "", "", ""))
    ensures SplitAddress(t, msgType + [t.sep] + agentID + [t.sep] + rest) == Some(Fields(msgType, agentID, "", "", ""))
  {
    var short := msgType + [t.sep] + agentID;
    SplitPlain(msgType, t.sep);
    SplitPlain(agentID, t.sep);
    SplitAppend(msgType, agentID, t.sep);
    SplitAppend(short, rest, t.sep);
    assert (short + [t.sep] + rest)[..6] == msgType[..6] && short[..6] == msgType[..6];
  }

  /** Any other address needs four fields, a fifth is the sender and more are ignored. */
  lemma {:induction false} OtherAddress(t: AddressTokens, parts: seq<string>)
    requires |parts| >= 1 && (forall p :: p in parts ==> t.sep !in p) && !("_INBOX" <= Join(parts, t.sep))
    ensures |parts| < 4 ==> SplitAddress(t, Join(parts, t.sep)) == None
    ensures |parts| == 4 ==> SplitAddress(t, Join(parts, t.sep)) == Some(Fields(parts[0], parts[1], parts[2], parts[3], ""))
    ensures |parts| > 4 ==> SplitAddress(t, Join(parts, t.sep)) == Some(Fields(parts[0], parts[1], parts[2], parts[3], parts[4]))
  {
    SplitJoin(parts, t.sep);
  }

  lemma {:induction false} InboxPrefix(sep: char, msgType: string, rest: string)
    requires sep !in MessageTypeINBOX
    ensures MessageTypeINBOX <= msgType + [sep] + rest <==> MessageTypeINBOX <= msgType
  {
    var addr, inbox := msgType + [sep] + rest, MessageTypeINBOX;
    if |msgType| < |inbox| {
      assert addr[|msgType|] == sep && inbox[|msgType|] in inbox;
    } else {
      assert addr[..|inbox|] == msgType[..|inbox|];
    }
  }

  lemma {:induction false} SplitSubjectInverts(f: Fields)
    requires Published(f)
    ensures SplitSubject(MakeSubject(f)) == Some(f)
  {
    SubjectTokens(f);
  }

  lemma {:induction false} SubjectTokens(f: Fields)
    requires Filter(f)
    ensures Split(MakeSubject(f), '.') == Listed(Filled(NatsTokens, f))
  {
    AddressIsSubject(f);
    var g := Filled(NatsTokens, f);
    assert forall s :: s in Listed(f) ==> '.' !in s;
    assert f.msgType in Listed(f) && f.agentID in Listed(f) && f.thingID in Listed(f)
           && f.name in Listed(f) && f.senderID in Listed(f);
    AddressParts(NatsTokens, f);
  }

  /** A filter field admits a value if it is open or equal to it. */
  predicate Admits(filter: string, value: string) {
    filter == "" || filter == value
  }

  predicate Covers(filter: Fields, m: Fields) {
    && OrElse(filter.msgType, MessageTypeEvent) == m.msgType
    && Admits(filter.agentID, m.agentID) && Admits(filter.thingID, m.thingID)
    && Admits(filter.name, m.name) && Admits(filter.senderID, m.senderID)
  }

  lemma {:induction false} MatchOne(p: string, ps: seq<string>, s: string, ss: seq<string>)
    requires ps != []
    ensures MatchTokens([p] + ps, [s] + ss) <==> (p == "*" || p == s) && MatchTokens(ps, ss)
  {
  }

  /** Routing is exact: a published message reaches a subscription if and only if the types agree
      and every field given in the filter equals the field of the message. */
  lemma {:induction false} RoutingExact(filter: Fields, m: Fields)
    requires Filter(filter) && Published(m)
    ensures Matches(MakeSubject(filter), MakeSubject(m))
       <==> && m.msgType == (if filter.msgType == "" then "event" else filter.msgType)
            && filter.agentID in {"", m.agentID} && filter.thingID in {"", m.thingID}
            && filter.name in {"", m.name} && filter.senderID in {"", m.senderID}
    ensures Matches(MakeSubject(filter), MakeSubject(m)) <==> Covers(filter, m)
  {
    SubjectTokens(filter);
    SubjectTokens(m);
    var f := Filled(NatsTokens, filter);
    assert Filled(NatsTokens, m) == m;
    assert filter.msgType in Listed(filter) && filter.agentID in Listed(filter) && filter.thingID in Listed(filter)
           && filter.name in Listed(filter) && filter.senderID in Listed(filter);
    FiveTokens(f, m);
    LastToken(f.senderID, m.senderID);
  }

  lemma {:induction false} FiveTokens(f: Fields, m: Fields)
    ensures MatchTokens(Listed(f), Listed(m))
       <==> && (f.msgType == "*" || f.msgType == m.msgType) && (f.agentID == "*" || f.agentID == m.agentID)
            && (f.thingID == "*" || f.thingID == m.thingID) && (f.name == "*" || f.name == m.name)
            && MatchTokens([f.senderID], [m.senderID])
  {
    MatchOne(f.name, [f.senderID], m.name, [m.senderID]);
    MatchOne(f.thingID, [f.name, f.senderID], m.thingID, [m.name, m.senderID]);
    MatchOne(f.agentID, [f.thingID, f.name, f.senderID], m.agentID, [m.thingID, m.name, m.senderID]);
    MatchOne(f.msgType, [f.agentID, f.thingID, f.name, f.senderID], m.msgType, [m.agentID, m.thingID, m.name, m.senderID]);
    assert [f.name] + [f.senderID] == [f.name, f.senderID];
    assert [m.name] + [m.senderID] == [m.name, m.senderID];
    assert [f.thingID] + [f.name, f.senderID] == [f.thingID, f.name, f.senderID];
    assert [m.thingID] + [m.name, m.senderID] == [m.thingID, m.name, m.senderID];
    assert [f.agentID] + [f.thingID, f.name, f.senderID] == [f.agentID, f.thingID, f.name, f.senderID];
    assert [m.agentID] + [m.thingID, m.name, m.senderID] == [m.agentID, m.thingID, m.name, m.senderID];
    assert [f.msgType] + [f.agentID, f.thingID, f.name, f.senderID] == Listed(f);
    assert [m.msgType] + [m.agentID, m.thingID, m.name, m.senderID] == Listed(m);
  }

  /** Tokens that are no wildcards. */
  ghost predicate Literal(tokens: seq<string>) {
    forall t :: t in tokens ==> t != "*" && t != ">"
  }

  lemma {:induction false} LiteralChars(p: string)
    requires '*' !in p && '>' !in p
    ensures Literal(Split(p, '.'))
  {
    SplitChars(p, '.', '*');
    SplitChars(p, '.', '>');
  }

  lemma {:induction false} MatchLiteral(ps: seq<string>, ss: seq<string>)
    requires Literal(ps)
    ensures MatchTokens(ps, ss) <==> ps == ss
  {
    if ps == [] {
    } else {
      assert ps[0] in ps && forall t :: t in ps[1..] ==> t in ps;
      if ss != [] {
        MatchLiteral(ps[1..], ss[1..]);
        assert ps == [ps[0]] + ps[1..] && ss == [ss[0]] + ss[1..];
      }
    }
  }

  lemma {:induction false} MatchBelow(ps: seq<string>, ss: seq<string>)
    requires Literal(ps)
    ensures MatchTokens(ps + [">"], ss) <==> ps <= ss && |ps| < |ss|
  {
    if ps == [] {
      assert ps + [">"] == [">"];
    } else {
      assert ps[0] in ps && forall t :: t in ps[1..] ==> t in ps;
      assert (ps + [">"])[0] == ps[0] && (ps + [">"])[1..] == ps[1..] + [">"];
      if ss != [] {
        MatchBelow(ps[1..], ss[1..]);
        assert ps == [ps[0]] + ps[1..] && ss == [ss[0]] + ss[1..];
      }
    }
  }

  /** A subject without wildcards admits only itself. */
  lemma {:induction false} ExactSubject(p: string, s: string)
    requires Literal(Split(p, '.'))
    ensures Matches(p, s) <==> p == s
  {
    MatchLiteral(Split(p, '.'), Split(s, '.'));
    JoinSplit(p, '.');
    JoinSplit(s, '.');
  }

  /** Followed by the wildcard for the remainder it admits exactly what is below it. */
  lemma {:induction false} SubjectBelow(p: string, s: string)
    requires Literal(Split(p, '.'))
    ensures Matches(p + ".>", s) <==> p + "." <= s
  {
    var ps, ss := Split(p, '.'), Split(s, '.');
    SplitAppend(p, ">", '.');
    SplitPlain(">", '.');
    assert p + "." + ">" == p + ".>";
    MatchBelow(ps, ss);
    if p + "." <= s {
      SplitAppend(p, s[|p| + 1..], '.');
      assert s == p + "." + s[|p| + 1..];
    }
    if ps <= ss && |ps| < |ss| {
      JoinAppend(ps, ss[|ps|..], '.');
      assert ss == ps + ss[|ps|..];
      JoinSplit(p, '.');
      JoinSplit(s, '.');
    }
  }

  lemma {:induction false} LastToken(p: string, s: string)
    ensures MatchTokens([p], [s]) <==> p == ">" || p == "*" || p == s
  {
  }

  /** A subject whose pattern begins with a plain token begins with that token. */
  lemma {:induction false} FirstTokenFixed(pattern: string, first: string, rest: string, subject: string)
    requires pattern == first + "." + rest && Token(first)
    ensures Matches(pattern, subject) ==> Split(subject, '.')[0] == first
  {
    SplitAppend(first, rest, '.');
    SplitPlain(first, '.');
    assert Split(pattern, '.') == [first] + Split(rest, '.');
  }
}

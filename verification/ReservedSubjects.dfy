/** The subjects beside hub messages: inboxes for replies, and the stream API of the server. */
module ReservedSubjects {
  import opened Text
  import opened Addressing
  import opened Permissions

  predicate Reserved(s: string) {
    Inbox(s) || "$JS." <= s
  }

  predicate Inbox(s: string) {
    "_INBOX" + "." <= s
  }

  predicate InboxOf(client: string, s: string) {
    "_INBOX" + "." + client + "." <= s
  }

  /** The calls that give access to the stream of events. */
  predicate StreamCall(s: string) {
    || s == "$JS." + "API.STREAM.INFO.$events"
    || s == "$JS." + "API.CONSUMER.CREATE.$events"
    || s == "$JS." + "API.CONSUMER.LIST.$events"
    || "$JS." + "API.CONSUMER.INFO.$events" + "." <= s
    || "$JS." + "API.CONSUMER.MSG.NEXT.$events" + "." <= s
  }

  lemma {:induction false} PlainExact(p: string, s: string)
    requires '*' !in p && '>' !in p
    ensures Matches(p, s) <==> p == s
    ensures Matches(p + ".>", s) <==> p + "." <= s
  {
    LiteralChars(p);
    ExactSubject(p, s);
    SubjectBelow(p, s);
  }

  lemma {:induction false} JetStreamExact(api: string, s: string)
    requires '*' !in api && '>' !in api
    ensures Matches(JetStream(api), s) <==> s == "$JS." + api
    ensures Matches(JetStream(api + ".>"), s) <==> "$JS." + api + "." <= s
  {
    PlainExact("$JS." + api, s);
    assert JetStream(api + ".>") == "$JS." + api + ".>";
  }

  lemma {:induction false} FiveMatch(ps: seq<string>, s: string)
    requires |ps| == 5
    ensures MatchesSome(ps, s)
       <==> Matches(ps[0], s) || Matches(ps[1], s) || Matches(ps[2], s) || Matches(ps[3], s) || Matches(ps[4], s)
  {
  }

  lemma {:induction false} StreamInfoExact(s: string)
    ensures Matches(StreamSubjects()[0], s) <==> s == "$JS." + "API.STREAM.INFO.$events"
  {
    JetStreamExact("API.STREAM.INFO.$events", s);
  }

  lemma {:induction false} StreamListExact(s: string)
    ensures Matches(StreamSubjects()[1], s) <==> s == "$JS." + "API.CONSUMER.CREATE.$events"
    ensures Matches(StreamSubjects()[2], s) <==> s == "$JS." + "API.CONSUMER.LIST.$events"
  {
    JetStreamExact("API.CONSUMER.CREATE.$events", s);
    JetStreamExact("API.CONSUMER.LIST.$events", s);
  }

  lemma {:induction false} StreamConsumersExact(s: string)
    ensures Matches(StreamSubjects()[3], s) <==> "$JS." + "API.CONSUMER.INFO.$events" + "." <= s
    ensures Matches(StreamSubjects()[4], s) <==> "$JS." + "API.CONSUMER.MSG.NEXT.$events" + "." <= s
  {
    JetStreamExact("API.CONSUMER.INFO.$events", s);
    JetStreamExact("API.CONSUMER.MSG.NEXT.$events", s);
  }

  lemma {:induction false} StreamsExact(s: string)
    ensures MatchesSome(StreamSubjects(), s) <==> StreamCall(s)
  {
    FiveMatch(StreamSubjects(), s);
    StreamInfoExact(s);
    StreamListExact(s);
    StreamConsumersExact(s);
  }

  lemma {:induction false} AnyInboxExact(s: string)
    ensures MatchesSome([AnyInbox], s) <==> Inbox(s)
  {
    PlainExact("_INBOX", s);
    assert [AnyInbox][0] == "_INBOX" + ".>";
  }

  lemma {:induction false} OwnInboxExact(client: string, s: string)
    requires Token(client)
    ensures MatchesSome([OwnInbox(client)], s) <==> InboxOf(client, s)
  {
    var own := "_INBOX" + "." + client;
    SplitAppend("_INBOX", client, '.');
    SplitPlain("_INBOX", '.');
    SplitPlain(client, '.');
    assert Split(own, '.') == ["_INBOX", client];
    SubjectBelow(own, s);
    assert [OwnInbox(client)][0] == own + ".>";
  }

  lemma {:induction false} DeniesExact(s: string)
    ensures MatchesSome([JetStream("API.CONSUMER" + ".>"), JetStream("API.STREAM" + ".>")], s)
       <==> "$JS." + "API.CONSUMER" + "." <= s || "$JS." + "API.STREAM" + "." <= s
  {
    var deny := [JetStream("API.CONSUMER" + ".>"), JetStream("API.STREAM" + ".>")];
    assert MatchesSome(deny, s) <==> Matches(deny[0], s) || Matches(deny[1], s);
    JetStreamExact("API.CONSUMER", s);
    JetStreamExact("API.STREAM", s);
  }

  // ----- the entries of a role are about hub messages only

  ghost predicate HubEntries(ps: seq<RolePermission>) {
    forall i :: 0 <= i < |ps| ==> HubType(ps[i].msgType)
  }

  lemma {:induction false} FirstOf(first: string, s: string)
    requires '.' !in first && first + "." <= s
    ensures Split(s, '.')[0] == first
  {
    assert s == first + "." + s[|first| + 1..];
    SplitAppend(first, s[|first| + 1..], '.');
    SplitPlain(first, '.');
  }

  lemma {:induction false} EntryElsewhere(f: Fields, s: string)
    requires HubType(f.msgType) && Reserved(s)
    ensures !Matches(MakeSubject(f), s)
  {
    var g := Filled(NatsTokens, f);
    var rest := g.agentID + "." + g.thingID + "." + g.name + "." + g.senderID;
    assert MakeSubject(f) == f.msgType + "." + rest;
    FirstTokenFixed(MakeSubject(f), f.msgType, rest, s);
    if Inbox(s) {
      FirstOf("_INBOX", s);
    } else {
      assert "$JS." == "$JS" + ".";
      FirstOf("$JS", s);
    }
  }

  lemma {:induction false} EntriesElsewhere(ps: seq<RolePermission>, client: string, s: string)
    requires HubEntries(ps) && Reserved(s)
    ensures !MatchesSome(PubSubjects(ps, client), s) && !MatchesSome(SubSubjects(ps, client), s)
  {
    if ps == [] {
    } else {
      var before, p := ps[..|ps| - 1], ps[|ps| - 1];
      EntriesElsewhere(before, client, s);
      var f := Substituted(p, client);
      EntryElsewhere(f, s);
      EntryElsewhere(f.(senderID := client), s);
      MatchesSomeAppend(PubSubjects(before, client), [MakeSubject(f.(senderID := client))], s);
      MatchesSomeAppend(SubSubjects(before, client), [MakeSubject(f)], s);
    }
  }

  lemma {:induction false} RoleEntries(history: seq<Grant>, role: string)
    requires DefaultRole(role)
    ensures role in DefaultRolePermissions && DefaultRolePermissions[role].Some?
    ensures HubEntries(DefaultRolePermissions[role].value + GrantsOf(AfterGrants(history), role))
  {
    var table, grants := DefaultRolePermissions[role].value, GrantsOf(AfterGrants(history), role);
    forall i | 0 <= i < |grants| ensures HubType(grants[i].msgType) {
      GrantsMeanHistory(history, role, grants[i]);
    }
    assert HubEntries(table);
  }

  lemma {:induction false} ListedPublishes(history: seq<Grant>, client: string, role: string, s: string)
    requires Reserved(s) && DefaultRole(role)
    ensures MayPublish(AfterGrants(history), client, role, s)
       <==> Inbox(s) || StreamCall(s) || (role == "admin" && s == "$JS." + "API.INFO")
  {
    RoleEntries(history, role);
    var ps := DefaultRolePermissions[role].value + GrantsOf(AfterGrants(history), role);
    var pubs, extra := PubSubjects(ps, client), if role == ClientRoleAdmin then [AdminSubject] else [];
    EntriesElsewhere(ps, client, s);
    AnyInboxExact(s);
    StreamsExact(s);
    AdminExact(role, s);
    MatchesSomeAppend([AnyInbox], pubs, s);
    MatchesSomeAppend([AnyInbox] + pubs, StreamSubjects(), s);
    MatchesSomeAppend([AnyInbox] + pubs + StreamSubjects(), extra, s);
  }

  lemma {:induction false} AdminExact(role: string, s: string)
    ensures MatchesSome(if role == ClientRoleAdmin then [AdminSubject] else [], s)
       <==> role == "admin" && s == "$JS." + "API.INFO"
  {
    JetStreamExact("API.INFO", s);
    assert [AdminSubject][0] == JetStream("API.INFO");
  }

  lemma {:induction false} ListedReceives(history: seq<Grant>, client: string, role: string, s: string)
    requires Token(client) && Reserved(s) && DefaultRole(role)
    ensures MaySubscribe(AfterGrants(history), client, role, s) <==> InboxOf(client, s)
  {
    RoleEntries(history, role);
    var ps := DefaultRolePermissions[role].value + GrantsOf(AfterGrants(history), role);
    EntriesElsewhere(ps, client, s);
    OwnInboxExact(client, s);
    MatchesSomeAppend([OwnInbox(client)], SubSubjects(ps, client), s);
  }

  lemma {:induction false} UnlistedRights(history: seq<Grant>, client: string, role: string, s: string)
    requires Token(client) && Reserved(s) && !DefaultRole(role)
    ensures MayPublish(AfterGrants(history), client, role, s) <==> Inbox(s)
    ensures MaySubscribe(AfterGrants(history), client, role, s) <==> InboxOf(client, s)
    ensures MatchesSome(PermissionsFor(DefaultRolePermissions, AfterGrants(history), client, role).pubDeny, s)
       <==> role != "" && ("$JS." + "API.CONSUMER" + "." <= s || "$JS." + "API.STREAM" + "." <= s)
  {
    AnyInboxExact(s);
    OwnInboxExact(client, s);
    DeniesExact(s);
  }

  /** For every role, known or not: a client may publish to any inbox and receive on its own alone;
      the default roles may also call for the stream of events, an admin also for the server's info.
      A client of an unknown role is denied consumers and streams. */
  lemma {:induction false} ReservedRights(history: seq<Grant>, client: string, role: string, s: string)
    requires Token(client) && Reserved(s)
    ensures MayPublish(AfterGrants(history), client, role, s)
       <==> Inbox(s) || (DefaultRole(role) && (StreamCall(s) || (role == "admin" && s == "$JS." + "API.INFO")))
    ensures MaySubscribe(AfterGrants(history), client, role, s) <==> InboxOf(client, s)
    ensures !DefaultRole(role) && role != "" ==>
              (MatchesSome(PermissionsFor(DefaultRolePermissions, AfterGrants(history), client, role).pubDeny, s)
               <==> "$JS." + "API.CONSUMER" + "." <= s || "$JS." + "API.STREAM" + "." <= s)
  {
    if DefaultRole(role) {
      ListedPublishes(history, client, role, s);
      ListedReceives(history, client, role, s);
    } else {
      UnlistedRights(history, client, role, s);
    }
  }
}

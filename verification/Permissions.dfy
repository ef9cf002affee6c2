/** Role based permissions: the role table and the grants set by services are expanded into
    lists of NATS subjects a client may publish and subscribe. */
module Permissions {
  import opened Messages
  import opened Text
  import opened Addressing

  datatype RolePermission = RolePermission(
    msgType: string, agentID: string, thingID: string, msgName: string, allowPub: bool, allowSub: bool)

  // ----- the role tables

  const ClientRoleNone := ""
  const ClientRoleAdmin := "admin"
  const ClientRoleDevice := "device"
  const ClientRoleManager := "manager"
  const ClientRoleOperator := "operator"
  const ClientRoleService := "service"
  const ClientRoleViewer := "viewer"

  const SelfID := "{clientID}"

  const devicePermissions: seq<RolePermission> := [
    RolePermission(MessageTypeEvent, SelfID, "", "", true, false),
    RolePermission(MessageTypeEvent, "", "", "", false, true),
    RolePermission(MessageTypeAction, SelfID, "", "", false, true),
    RolePermission(MessageTypeConfig, SelfID, "", "", false, true)]

  const viewerPermissions: seq<RolePermission> := [
    RolePermission(MessageTypeEvent, "", "", "", false, true)]

  const operatorPermissions: seq<RolePermission> := [
    RolePermission(MessageTypeEvent, "", "", "", false, true),
    RolePermission(MessageTypeAction, "", "", "", true, false)]

  const managerPermissions: seq<RolePermission> := operatorPermissions + [
    RolePermission(MessageTypeConfig, "", "", "", true, false)]

  const adminPermissions: seq<RolePermission> := managerPermissions + [
    RolePermission(MessageTypeRPC, "", "", "", true, false)]

  const servicePermissions: seq<RolePermission> := adminPermissions + [
    RolePermission(MessageTypeEvent, SelfID, "", "", true, false),
    RolePermission(MessageTypeRPC, SelfID, "", "", false, true),
    RolePermission(MessageTypeAction, SelfID, "", "", false, true),
    RolePermission(MessageTypeConfig, SelfID, "", "", false, true)]

  /** A role whose list is nil has no permissions. */
  type RoleTable = map<string, Option<seq<RolePermission>>>

  const DefaultRolePermissions: RoleTable := map[
    ClientRoleNone := None,
    ClientRoleDevice := Some(devicePermissions),
    ClientRoleService := Some(servicePermissions),
    ClientRoleViewer := Some(viewerPermissions),
    ClientRoleOperator := Some(operatorPermissions),
    ClientRoleManager := Some(managerPermissions),
    ClientRoleAdmin := Some(adminPermissions)]

  // ----- grants by services

  datatype Grant = Grant(serviceID: string, capability: string, roles: seq<string>)
  type Grants = map<string, seq<RolePermission>>

  function ServiceEntry(serviceID: string, capability: string): RolePermission {
    RolePermission(MessageTypeRPC, serviceID, capability, "", true, false)
  }

  function GrantsOf(grants: Grants, role: string): seq<RolePermission> {
    if role in grants then grants[role] else []
  }

  function GrantRoles(grants: Grants, entry: RolePermission, roles: seq<string>): Grants {
    if roles == [] then grants
    else
      var before, role := GrantRoles(grants, entry, roles[..|roles| - 1]), roles[|roles| - 1];
      before[role := GrantsOf(before, role) + [entry]]
  }

  function AfterGrants(history: seq<Grant>): Grants {
    if history == [] then map[]
    else
      var g := history[|history| - 1];
      GrantRoles(AfterGrants(history[..|history| - 1]), ServiceEntry(g.serviceID, g.capability), g.roles)
  }

  // ----- expanding permissions into subjects

  function Substituted(p: RolePermission, client: string): Fields {
    Fields(p.msgType, if p.agentID == SelfID then client else p.agentID, p.thingID, p.msgName, "")
  }

  /** Publishing requires the client's own ID as the sender. */
  function PubSubjects(ps: seq<RolePermission>, client: string): seq<string> {
    if ps == [] then []
    else
      var before, p := PubSubjects(ps[..|ps| - 1], client), ps[|ps| - 1];
      if p.allowPub then before + [MakeSubject(Substituted(p, client).(senderID := client))] else before
  }

  function SubSubjects(ps: seq<RolePermission>, client: string): seq<string> {
    if ps == [] then []
    else
      var before, p := SubSubjects(ps[..|ps| - 1], client), ps[|ps| - 1];
      if p.allowSub then before + [MakeSubject(Substituted(p, client))] else before
  }

  function JetStream(api: string): string {
    "$JS." + api
  }

  /** The calls that concern the events intake stream, named `$events`. */
  const StreamApis: seq<string> := [
    "API.STREAM.INFO.$events",
    "API.CONSUMER.CREATE.$events",
    "API.CONSUMER.LIST.$events",
    "API.CONSUMER.INFO.$events" + ".>",
    "API.CONSUMER.MSG.NEXT.$events" + ".>"]

  function StreamSubjects(): (subjects: seq<string>)
    ensures |subjects| == |StreamApis|
    ensures forall i :: 0 <= i < |subjects| ==> subjects[i] == JetStream(StreamApis[i])
  {
    seq(|StreamApis|, i requires 0 <= i < |StreamApis| => JetStream(StreamApis[i]))
  }

  const AdminSubject := JetStream("API.INFO")
  const AnyInbox := MessageTypeINBOX + ".>"

  function OwnInbox(client: string): string {
    MessageTypeINBOX + "." + client + ".>"
  }

  datatype Permissions = Permissions(pubAllow: seq<string>, pubDeny: seq<string>, subAllow: seq<string>, subDeny: seq<string>)

  function PermissionsFor(table: RoleTable, grants: Grants, client: string, role: string): Permissions {
    if role !in table then
      Permissions([AnyInbox], [JetStream("API.CONSUMER" + ".>"), JetStream("API.STREAM" + ".>")], [OwnInbox(client)], [])
    else if table[role].None? then Permissions([AnyInbox], [], [OwnInbox(client)], [])
    else
      var ps := table[role].value + GrantsOf(grants, role);
      Permissions([AnyInbox] + PubSubjects(ps, client) + StreamSubjects()
                  + (if role == ClientRoleAdmin then [AdminSubject] else []), [],
                  [OwnInbox(client)] + SubSubjects(ps, client), [])
  }

  class NatsAuth {
    var rolePermissions: RoleTable
    var servicePermissions: Grants

    constructor (table: RoleTable)
      ensures rolePermissions == table && servicePermissions == map[]
    {
      rolePermissions, servicePermissions := table, map[];
    }

    method SetServicePermissions(serviceID: string, capability: string, roles: seq<string>)
      modifies this`servicePermissions
      ensures servicePermissions == GrantRoles(old(servicePermissions), ServiceEntry(serviceID, capability), roles)
    {
      for i := 0 to |roles|
        invariant servicePermissions == GrantRoles(old(servicePermissions), ServiceEntry(serviceID, capability), roles[..i])
      {
        assert roles[..i + 1][..i] == roles[..i];
        var rp := if roles[i] in servicePermissions then servicePermissions[roles[i]] else [];
        rp := rp + [RolePermission(MessageTypeRPC, serviceID, capability, "", true, false)];
        servicePermissions := servicePermissions[roles[i] := rp];
      }
      assert roles[..|roles|] == roles;
    }

    method MakePermissions(client: string, role: string) returns (perm: Permissions)
      ensures perm == PermissionsFor(rolePermissions, servicePermissions, client, role)
    {
      var pubAllow, pubDeny, subAllow := [AnyInbox], [], [OwnInbox(client)];
      if role in rolePermissions && rolePermissions[role].None? {
        // no permissions for this role
      } else if role in rolePermissions {
        var ps := rolePermissions[role].value;
        if role in servicePermissions {
          ps := ps + servicePermissions[role];
        }
        assert ps == rolePermissions[role].value + GrantsOf(servicePermissions, role);
        for i := 0 to |ps|
          invariant pubAllow == [AnyInbox] + PubSubjects(ps[..i], client)
          invariant subAllow == [OwnInbox(client)] + SubSubjects(ps[..i], client)
        {
          assert ps[..i + 1][..i] == ps[..i];
          var p := ps[i];
          var agentID := if p.agentID == SelfID then client else p.agentID;
          if p.allowPub {
            pubAllow := pubAllow + [MakeSubject(Fields(p.msgType, agentID, p.thingID, p.msgName, client))];
          }
          if p.allowSub {
            subAllow := subAllow + [MakeSubject(Fields(p.msgType, agentID, p.thingID, p.msgName, ""))];
          }
        }
        assert ps[..|ps|] == ps;
        pubAllow := pubAllow + StreamSubjects();
        if role == ClientRoleAdmin {
          pubAllow := pubAllow + [AdminSubject];
        }
      } else {
        pubDeny := [JetStream("API.CONSUMER" + ".>"), JetStream("API.STREAM" + ".>")];
      }
      perm := Permissions(pubAllow, pubDeny, subAllow, []);
    }
  }

  // ----- what the lists mean

  predicate HubType(msgType: string) {
    msgType in {MessageTypeEvent, MessageTypeAction, MessageTypeConfig, MessageTypeRPC}
  }

  /** A message as it is published on the bus. */
  predicate HubMessage(m: Fields) {
    Published(m) && HubType(m.msgType)
  }

  ghost predicate MatchesSome(patterns: seq<string>, subject: string) {
    exists i :: 0 <= i < |patterns| && Matches(patterns[i], subject)
  }

  /** The server lets a client publish what its allow list admits and its deny list does not. */
  ghost predicate MayPublish(grants: Grants, client: string, role: string, subject: string) {
    var perm := PermissionsFor(DefaultRolePermissions, grants, client, role);
    MatchesSome(perm.pubAllow, subject) && !MatchesSome(perm.pubDeny, subject)
  }

  ghost predicate MaySubscribe(grants: Grants, client: string, role: string, subject: string) {
    var perm := PermissionsFor(DefaultRolePermissions, grants, client, role);
    MatchesSome(perm.subAllow, subject) && !MatchesSome(perm.subDeny, subject)
  }

  /** The entry, for this client, covers the message; the sender is left open. */
  predicate EntryCovers(p: RolePermission, client: string, m: Fields) {
    Covers(Substituted(p, client), m)
  }

  ghost predicate SomeEntry(ps: seq<RolePermission>, pub: bool, client: string, m: Fields) {
    exists i :: 0 <= i < |ps| && (if pub then ps[i].allowPub else ps[i].allowSub) && EntryCovers(ps[i], client, m)
  }

  /** Entries whose fields are names or open. */
  ghost predicate PlainEntries(ps: seq<RolePermission>) {
    forall i :: 0 <= i < |ps| ==> PlainEntry(ps[i])
  }

  predicate PlainEntry(p: RolePermission) {
    && (p.msgType == "" || Token(p.msgType)) && (p.agentID == "" || Token(p.agentID))
    && (p.thingID == "" || Token(p.thingID)) && (p.msgName == "" || Token(p.msgName))
  }

  lemma {:induction false} MatchesSomeAppend(a: seq<string>, b: seq<string>, subject: string)
    ensures MatchesSome(a + b, subject) <==> MatchesSome(a, subject) || MatchesSome(b, subject)
  {
    if MatchesSome(a, subject) {
      var i :| 0 <= i < |a| && Matches(a[i], subject);
      assert (a + b)[i] == a[i];
    }
    if MatchesSome(b, subject) {
      var i :| 0 <= i < |b| && Matches(b[i], subject);
      assert (a + b)[|a| + i] == b[i];
    }
  }

  lemma {:induction false} SomeEntryAppend(ps: seq<RolePermission>, p: RolePermission, pub: bool, client: string, m: Fields)
    ensures SomeEntry(ps + [p], pub, client, m)
       <==> SomeEntry(ps, pub, client, m) || ((if pub then p.allowPub else p.allowSub) && EntryCovers(p, client, m))
  {
    var all := ps + [p];
    assert all[|ps|] == p;
    if SomeEntry(ps, pub, client, m) {
      var i :| 0 <= i < |ps| && (if pub then ps[i].allowPub else ps[i].allowSub) && EntryCovers(ps[i], client, m);
      assert all[i] == ps[i];
    }
  }

  lemma {:induction false} EntryFilter(p: RolePermission, client: string, sender: string)
    requires PlainEntries([p]) && Token(client) && (sender == "" || sender == client)
    ensures Filter(Substituted(p, client).(senderID := sender))
  {
    assert [p][0] == p;
  }

  /** The expanded publish list admits exactly the client's own messages that an entry covers. */
  lemma {:induction false} PubSubjectsExact(ps: seq<RolePermission>, client: string, m: Fields)
    requires PlainEntries(ps) && Token(client) && Published(m)
    ensures MatchesSome(PubSubjects(ps, client), MakeSubject(m))
       <==> m.senderID == client && SomeEntry(ps, true, client, m)
  {
    if ps == [] {
    } else {
      var before, p := ps[..|ps| - 1], ps[|ps| - 1];
      assert forall i :: 0 <= i < |before| ==> before[i] == ps[i];
      PubSubjectsExact(before, client, m);
      SomeEntryAppend(before, p, true, client, m);
      assert before + [p] == ps;
      if p.allowPub {
        var subject := MakeSubject(Substituted(p, client).(senderID := client));
        MatchesSomeAppend(PubSubjects(before, client), [subject], MakeSubject(m));
        EntryFilter(p, client, client);
        RoutingExact(Substituted(p, client).(senderID := client), m);
        assert [subject][0] == subject;
      }
    }
  }

  lemma {:induction false} SubSubjectsExact(ps: seq<RolePermission>, client: string, m: Fields)
    requires PlainEntries(ps) && Token(client) && Published(m)
    ensures MatchesSome(SubSubjects(ps, client), MakeSubject(m)) <==> SomeEntry(ps, false, client, m)
  {
    if ps == [] {
    } else {
      var before, p := ps[..|ps| - 1], ps[|ps| - 1];
      assert forall i :: 0 <= i < |before| ==> before[i] == ps[i];
      SubSubjectsExact(before, client, m);
      SomeEntryAppend(before, p, false, client, m);
      assert before + [p] == ps;
      if p.allowSub {
        var subject := MakeSubject(Substituted(p, client));
        MatchesSomeAppend(SubSubjects(before, client), [subject], MakeSubject(m));
        EntryFilter(p, client, "");
        RoutingExact(Substituted(p, client), m);
        assert [subject][0] == subject;
      }
    }
  }

  lemma {:induction false} NoSuchFirst(pattern: string, first: string, rest: string, m: Fields)
    requires pattern == first + "." + rest && Token(first) && HubMessage(m) && !HubType(first)
    ensures !Matches(pattern, MakeSubject(m))
  {
    FirstTokenFixed(pattern, first, rest, MakeSubject(m));
    SubjectTokens(m);
  }

  lemma {:induction false} JetStreamAdmitsNone(api: string, m: Fields)
    requires HubMessage(m)
    ensures !Matches(JetStream(api), MakeSubject(m))
  {
    assert JetStream(api) == "$JS" + "." + api;
    NoSuchFirst(JetStream(api), "$JS", api, m);
  }

  lemma {:induction false} InboxAdmitsNone(rest: string, m: Fields)
    requires HubMessage(m)
    ensures !Matches(MessageTypeINBOX + "." + rest, MakeSubject(m))
  {
    NoSuchFirst(MessageTypeINBOX + "." + rest, MessageTypeINBOX, rest, m);
  }

  lemma {:induction false} StreamsAdmitNone(m: Fields)
    requires HubMessage(m)
    ensures !MatchesSome(StreamSubjects(), MakeSubject(m)) && !MatchesSome([AdminSubject], MakeSubject(m))
  {
    forall i | 0 <= i < |StreamSubjects()| ensures !Matches(StreamSubjects()[i], MakeSubject(m)) {
      JetStreamAdmitsNone(StreamApis[i], m);
    }
    JetStreamAdmitsNone("API.INFO", m);
  }

  /** The inbox and stream subjects in the lists admit no hub message. */
  lemma {:induction false} FixedSubjectsAdmitNone(client: string, m: Fields)
    requires HubMessage(m)
    ensures !MatchesSome([AnyInbox], MakeSubject(m)) && !MatchesSome([OwnInbox(client)], MakeSubject(m))
    ensures !MatchesSome(StreamSubjects(), MakeSubject(m)) && !MatchesSome([AdminSubject], MakeSubject(m))
  {
    StreamsAdmitNone(m);
    InboxAdmitsNone(">", m);
    InboxAdmitsNone(client + ".>", m);
    assert AnyInbox == MessageTypeINBOX + "." + ">";
    assert OwnInbox(client) == MessageTypeINBOX + "." + (client + ".>");
  }

  /** Permission lists mean the table: for a role with a list, a hub message is admitted by the
      publish list if and only if its sender is the client and some entry of the table or of the
      grants covers it, and by the subscribe list if and only if some entry covers it. */
  lemma {:induction false} ListsMeanTable(table: RoleTable, grants: Grants, client: string, role: string, m: Fields)
    requires role in table && table[role].Some? && Token(client) && HubMessage(m)
    requires PlainEntries(table[role].value + GrantsOf(grants, role))
    ensures var perm, ps := PermissionsFor(table, grants, client, role), table[role].value + GrantsOf(grants, role);
            && perm.pubDeny == [] && perm.subDeny == []
            && (MatchesSome(perm.pubAllow, MakeSubject(m)) <==> m.senderID == client && SomeEntry(ps, true, client, m))
            && (MatchesSome(perm.subAllow, MakeSubject(m)) <==> SomeEntry(ps, false, client, m))
  {
    var ps := table[role].value + GrantsOf(grants, role);
    var pubs, subs, subject := PubSubjects(ps, client), SubSubjects(ps, client), MakeSubject(m);
    var extra := if role == ClientRoleAdmin then [AdminSubject] else [];
    PubSubjectsExact(ps, client, m);
    SubSubjectsExact(ps, client, m);
    FixedSubjectsAdmitNone(client, m);
    MatchesSomeAppend([AnyInbox], pubs, subject);
    MatchesSomeAppend([AnyInbox] + pubs, StreamSubjects(), subject);
    MatchesSomeAppend([AnyInbox] + pubs + StreamSubjects(), extra, subject);
    MatchesSomeAppend([OwnInbox(client)], subs, subject);
  }

  /** A client whose role is unknown or has no list can neither publish nor receive a hub message. */
  lemma {:induction false} NoListMeansNone(table: RoleTable, grants: Grants, client: string, role: string, m: Fields)
    requires (role in table ==> table[role].None?) && HubMessage(m)
    ensures var perm := PermissionsFor(table, grants, client, role);
            !MatchesSome(perm.pubAllow, MakeSubject(m)) && !MatchesSome(perm.subAllow, MakeSubject(m))
  {
    FixedSubjectsAdmitNone(client, m);
  }

  // ----- grants over a history of calls

  lemma {:induction false} GrantRolesMeaning(grants: Grants, entry: RolePermission, roles: seq<string>, role: string, e: RolePermission)
    ensures e in GrantsOf(GrantRoles(grants, entry, roles), role)
       <==> e in GrantsOf(grants, role) || (role in roles && e == entry)
  {
    if roles == [] {
    } else {
      var before, last := roles[..|roles| - 1], roles[|roles| - 1];
      GrantRolesMeaning(grants, entry, before, role, e);
      assert roles == before + [last];
    }
  }

  /** After any history of calls a role holds exactly the entries granted to it: each lets it
      call all methods of a capability of a service. */
  lemma {:induction false} GrantsMeanHistory(history: seq<Grant>, role: string, e: RolePermission)
    ensures e in GrantsOf(AfterGrants(history), role)
       <==> exists g :: g in history && role in g.roles
                        && e == RolePermission("rpc", g.serviceID, g.capability, "", true, false)
  {
    if history == [] {
    } else {
      var before, g := history[..|history| - 1], history[|history| - 1];
      GrantsMeanHistory(before, role, e);
      GrantRolesMeaning(AfterGrants(before), ServiceEntry(g.serviceID, g.capability), g.roles, role, e);
      assert history == before + [g];
      if e in GrantsOf(AfterGrants(history), role) && e !in GrantsOf(AfterGrants(before), role) {
        assert g in history && role in g.roles && e == RolePermission("rpc", g.serviceID, g.capability, "", true, false);
      }
    }
  }

  lemma {:induction false} PlainKind(msgType: string, own: bool, pub: bool, sub: bool)
    requires HubType(msgType)
    ensures PlainEntry(RolePermission(msgType, if own then SelfID else "", "", "", pub, sub))
  {
    assert Token(SelfID) && Token(MessageTypeEvent) && Token(MessageTypeAction)
           && Token(MessageTypeConfig) && Token(MessageTypeRPC);
  }

  lemma {:induction false} TablesPlain()
    ensures PlainEntries(devicePermissions) && PlainEntries(viewerPermissions) && PlainEntries(operatorPermissions)
    ensures PlainEntries(managerPermissions) && PlainEntries(adminPermissions) && PlainEntries(servicePermissions)
  {
    PlainKind(MessageTypeEvent, true, true, false);
    PlainKind(MessageTypeEvent, false, false, true);
    PlainKind(MessageTypeAction, false, true, false);
    PlainKind(MessageTypeConfig, false, true, false);
    PlainKind(MessageTypeRPC, false, true, false);
    PlainKind(MessageTypeRPC, true, false, true);
    PlainKind(MessageTypeAction, true, false, true);
    PlainKind(MessageTypeConfig, true, false, true);
  }

  lemma {:induction false} DefaultTablePlain(role: string)
    requires role in DefaultRolePermissions && DefaultRolePermissions[role].Some?
    ensures PlainEntries(DefaultRolePermissions[role].value)
  {
    TablesPlain();
  }

  /** Services grant under names that can be fields of a subject. */
  ghost predicate PlainGrants(history: seq<Grant>) {
    forall g :: g in history ==>
      (g.serviceID == "" || Token(g.serviceID)) && (g.capability == "" || Token(g.capability))
  }

  /** Some call granted the role a capability that the message is for. */
  ghost predicate Granted(history: seq<Grant>, client: string, role: string, m: Fields) {
    exists g :: g in history && role in g.roles && m.msgType == "rpc"
                && (g.serviceID == "" || m.agentID == (if g.serviceID == "{clientID}" then client else g.serviceID))
                && (g.capability == "" || m.thingID == g.capability)
  }

  lemma {:induction false} GrantsPlain(history: seq<Grant>, role: string)
    requires PlainGrants(history)
    ensures PlainEntries(GrantsOf(AfterGrants(history), role))
  {
    var ps := GrantsOf(AfterGrants(history), role);
    assert Token("rpc");
    forall i | 0 <= i < |ps| ensures PlainEntry(ps[i]) {
      GrantsMeanHistory(history, role, ps[i]);
    }
  }

  lemma {:induction false} GrantCovers(history: seq<Grant>, client: string, role: string, m: Fields)
    requires Token(client)
    ensures SomeEntry(GrantsOf(AfterGrants(history), role), true, client, m) <==> Granted(history, client, role, m)
    ensures !SomeEntry(GrantsOf(AfterGrants(history), role), false, client, m)
  {
    var ps := GrantsOf(AfterGrants(history), role);
    forall i | 0 <= i < |ps| ensures !ps[i].allowSub && (EntryCovers(ps[i], client, m) ==> Granted(history, client, role, m)) {
      GrantsMeanHistory(history, role, ps[i]);
    }
    if Granted(history, client, role, m) {
      var g :| g in history && role in g.roles && m.msgType == "rpc"
               && (g.serviceID == "" || m.agentID == (if g.serviceID == "{clientID}" then client else g.serviceID))
               && (g.capability == "" || m.thingID == g.capability);
      var e := RolePermission("rpc", g.serviceID, g.capability, "", true, false);
      GrantsMeanHistory(history, role, e);
      var i :| 0 <= i < |ps| && ps[i] == e;
      assert ps[i].allowPub;
    }
  }

  lemma {:induction false} SomeEntryConcat(ps: seq<RolePermission>, qs: seq<RolePermission>, pub: bool, client: string, m: Fields)
    ensures SomeEntry(ps + qs, pub, client, m) <==> SomeEntry(ps, pub, client, m) || SomeEntry(qs, pub, client, m)
  {
    if SomeEntry(ps, pub, client, m) { SomeEntryOf(ps, ps + qs, pub, client, m); }
    if SomeEntry(qs, pub, client, m) { SomeEntryOf(qs, ps + qs, pub, client, m); }
  }

  /** An entry that leaves all but the type open, or all but the type and the agent. */
  lemma {:induction false} EntryCoversExact(msgType: string, own: bool, pub: bool, sub: bool, client: string, m: Fields)
    requires msgType != "" && Token(client)
    ensures EntryCovers(RolePermission(msgType, if own then SelfID else "", "", "", pub, sub), client, m)
       <==> msgType == m.msgType && (own ==> m.agentID == client)
  {
  }

  /** One more entry of one of the two kinds. */
  lemma {:induction false} SomeEntryKind(ps: seq<RolePermission>, msgType: string, own: bool, forPub: bool, pub: bool, client: string, m: Fields)
    requires msgType != "" && Token(client)
    ensures var p := RolePermission(msgType, if own then SelfID else "", "", "", forPub, !forPub);
            SomeEntry(ps + [p], pub, client, m)
            <==> || SomeEntry(ps, pub, client, m)
                 || (pub == forPub && msgType == m.msgType && (own ==> m.agentID == client))
  {
    var p := RolePermission(msgType, if own then SelfID else "", "", "", forPub, !forPub);
    SomeEntryAppend(ps, p, pub, client, m);
    EntryCoversExact(msgType, own, forPub, !forPub, client, m);
  }

  /** The tables of the user roles in plain words: what they cover for publishing and receiving. */
  lemma {:induction false} UserEntries(pub: bool, client: string, m: Fields)
    requires Token(client)
    ensures SomeEntry(viewerPermissions, pub, client, m) <==> !pub && m.msgType == MessageTypeEvent
    ensures SomeEntry(operatorPermissions, pub, client, m)
       <==> if pub then m.msgType == MessageTypeAction else m.msgType == MessageTypeEvent
    ensures SomeEntry(managerPermissions, pub, client, m)
       <==> if pub then m.msgType in {MessageTypeAction, MessageTypeConfig} else m.msgType == MessageTypeEvent
    ensures SomeEntry(adminPermissions, pub, client, m)
       <==> if pub then m.msgType in {MessageTypeAction, MessageTypeConfig, MessageTypeRPC} else m.msgType == MessageTypeEvent
  {
    SomeEntryKind([], MessageTypeEvent, false, false, pub, client, m);
    assert [] + viewerPermissions == viewerPermissions;
    SomeEntryKind(viewerPermissions, MessageTypeAction, false, true, pub, client, m);
    assert viewerPermissions + [RolePermission(MessageTypeAction, "", "", "", true, false)] == operatorPermissions;
    SomeEntryKind(operatorPermissions, MessageTypeConfig, false, true, pub, client, m);
    SomeEntryKind(managerPermissions, MessageTypeRPC, false, true, pub, client, m);
  }

  const OwnActionsAndConfig: seq<RolePermission> := [
    RolePermission(MessageTypeAction, SelfID, "", "", false, true),
    RolePermission(MessageTypeConfig, SelfID, "", "", false, true)]

  lemma {:induction false} OwnEntries(ps: seq<RolePermission>, pub: bool, client: string, m: Fields)
    requires Token(client)
    ensures SomeEntry(ps + OwnActionsAndConfig, pub, client, m)
       <==> || SomeEntry(ps, pub, client, m)
            || (!pub && m.msgType in {MessageTypeAction, MessageTypeConfig} && m.agentID == client)
  {
    var more := ps + [RolePermission(MessageTypeAction, SelfID, "", "", false, true)];
    SomeEntryKind(ps, MessageTypeAction, true, false, pub, client, m);
    SomeEntryKind(more, MessageTypeConfig, true, false, pub, client, m);
    assert ps + OwnActionsAndConfig == more + [RolePermission(MessageTypeConfig, SelfID, "", "", false, true)];
  }

  /** The tables of devices and services: a device handles its own things; a service is an admin
      that also handles its own things and capabilities. */
  lemma {:induction false} AgentEntries(pub: bool, client: string, m: Fields)
    requires Token(client)
    ensures SomeEntry(devicePermissions, pub, client, m)
       <==> if pub then m.msgType == MessageTypeEvent && m.agentID == client
            else m.msgType == MessageTypeEvent
                 || (m.msgType in {MessageTypeAction, MessageTypeConfig} && m.agentID == client)
    ensures SomeEntry(servicePermissions, pub, client, m)
       <==> || SomeEntry(adminPermissions, pub, client, m)
            || (m.agentID == client
                && if pub then m.msgType == MessageTypeEvent
                   else m.msgType in {MessageTypeAction, MessageTypeConfig, MessageTypeRPC})
  {
    var ownEvents, ownRpc := RolePermission(MessageTypeEvent, SelfID, "", "", true, false),
                             RolePermission(MessageTypeRPC, SelfID, "", "", false, true);
    SomeEntryKind([], MessageTypeEvent, true, true, pub, client, m);
    assert [] + [ownEvents] == [ownEvents];
    SomeEntryKind([ownEvents], MessageTypeEvent, false, false, pub, client, m);
    OwnEntries([ownEvents] + viewerPermissions, pub, client, m);
    assert [ownEvents] + viewerPermissions + OwnActionsAndConfig == devicePermissions;
    SomeEntryKind(adminPermissions, MessageTypeEvent, true, true, pub, client, m);
    SomeEntryKind(adminPermissions + [ownEvents], MessageTypeRPC, true, false, pub, client, m);
    OwnEntries(adminPermissions + [ownEvents] + [ownRpc], pub, client, m);
    assert adminPermissions + [ownEvents] + [ownRpc] + OwnActionsAndConfig == servicePermissions;
  }

  // ----- the rights of the default roles

  predicate DefaultRole(role: string) {
    role in {"viewer", "operator", "manager", "admin", "service", "device"}
  }

  /** What a role may publish by its table, with its own ID as the sender. */
  predicate TablePublishes(role: string, client: string, m: Fields) {
    match role
    case "operator" => m.msgType == "action"
    case "manager" => m.msgType in {"action", "config"}
    case "admin" => m.msgType in {"action", "config", "rpc"}
    case "service" => m.msgType in {"action", "config", "rpc"} || (m.msgType == "event" && m.agentID == client)
    case "device" => m.msgType == "event" && m.agentID == client
    case _ => false
  }

  /** What a role receives: all events; agents also the requests addressed to them. */
  predicate TableReceives(role: string, client: string, m: Fields) {
    || m.msgType == "event"
    || (role in {"service", "device"} && m.msgType in {"action", "config"} && m.agentID == client)
    || (role == "service" && m.msgType == "rpc" && m.agentID == client)
  }

  lemma {:induction false} DefaultTables(role: string, client: string, m: Fields)
    requires DefaultRole(role) && Token(client)
    ensures role in DefaultRolePermissions && DefaultRolePermissions[role].Some?
    ensures var table := DefaultRolePermissions[role].value;
            && (SomeEntry(table, true, client, m) <==> TablePublishes(role, client, m))
            && (SomeEntry(table, false, client, m) <==> TableReceives(role, client, m))
  {
    UserEntries(true, client, m);
    UserEntries(false, client, m);
    AgentEntries(true, client, m);
    AgentEntries(false, client, m);
  }

  /** The lists in service, in the fields of the message: for every default role, every client and
      every history of grants, a hub message may be published if and only if its sender is the
      client and the role's table has it or some call granted it to the role; and it may be received
      if and only if the table has it, whatever was granted. */
  lemma {:induction false} DefaultListsMeanTable(history: seq<Grant>, client: string, role: string, m: Fields)
    requires DefaultRole(role) && Token(client) && HubMessage(m) && PlainGrants(history)
    ensures MayPublish(AfterGrants(history), client, role, MakeSubject(m))
       <==> m.senderID == client && (TablePublishes(role, client, m) || Granted(history, client, role, m))
    ensures MaySubscribe(AfterGrants(history), client, role, MakeSubject(m)) <==> TableReceives(role, client, m)
  {
    DefaultTables(role, client, m);
    var table, grants := DefaultRolePermissions[role].value, AfterGrants(history);
    DefaultTablePlain(role);
    GrantsPlain(history, role);
    PlainAppend(table, GrantsOf(grants, role));
    ListsMeanTable(DefaultRolePermissions, grants, client, role, m);
    SomeEntryConcat(table, GrantsOf(grants, role), true, client, m);
    SomeEntryConcat(table, GrantsOf(grants, role), false, client, m);
    GrantCovers(history, client, role, m);
  }

  // ----- growing roles

  /** The roles by rank: viewer, operator, manager, admin. */
  function Ranked(i: nat): string
    requires i < 4
  {
    [ClientRoleViewer, ClientRoleOperator, ClientRoleManager, ClientRoleAdmin][i]
  }

  function TableOf(i: nat): seq<RolePermission>
    requires i < 4
  {
    [viewerPermissions, operatorPermissions, managerPermissions, adminPermissions][i]
  }

  lemma {:induction false} RankedTable(i: nat)
    requires i < 4
    ensures Ranked(i) in DefaultRolePermissions && DefaultRolePermissions[Ranked(i)] == Some(TableOf(i))
    ensures PlainEntries(TableOf(i))
    ensures forall j, p :: 0 <= j <= i && p in TableOf(j) ==> p in TableOf(i)
  {
    TablesPlain();
  }

  lemma {:induction false} SomeEntryOf(ps: seq<RolePermission>, qs: seq<RolePermission>, pub: bool, client: string, m: Fields)
    requires SomeEntry(ps, pub, client, m) && forall p :: p in ps ==> p in qs
    ensures SomeEntry(qs, pub, client, m)
  {
    var i :| 0 <= i < |ps| && (if pub then ps[i].allowPub else ps[i].allowSub) && EntryCovers(ps[i], client, m);
    assert ps[i] in qs;
  }

  lemma {:induction false} PlainAppend(ps: seq<RolePermission>, qs: seq<RolePermission>)
    requires PlainEntries(ps) && PlainEntries(qs)
    ensures PlainEntries(ps + qs)
  {
  }

  /** With equal service grants the messages a client may publish and receive grow with its role
      along viewer, operator, manager, admin. */
  lemma {:induction false} RolesGrow(grants: Grants, client: string, i: nat, j: nat, m: Fields)
    requires i <= j < 4 && Token(client) && HubMessage(m)
    requires GrantsOf(grants, Ranked(i)) == GrantsOf(grants, Ranked(j)) && PlainEntries(GrantsOf(grants, Ranked(i)))
    ensures MayPublish(grants, client, Ranked(i), MakeSubject(m)) ==> MayPublish(grants, client, Ranked(j), MakeSubject(m))
    ensures MaySubscribe(grants, client, Ranked(i), MakeSubject(m)) ==> MaySubscribe(grants, client, Ranked(j), MakeSubject(m))
  {
    var extra := GrantsOf(grants, Ranked(i));
    RankedTable(i);
    RankedTable(j);
    var ps, qs := TableOf(i) + extra, TableOf(j) + extra;
    PlainAppend(TableOf(i), extra);
    PlainAppend(TableOf(j), extra);
    ListsMeanTable(DefaultRolePermissions, grants, client, Ranked(i), m);
    ListsMeanTable(DefaultRolePermissions, grants, client, Ranked(j), m);
    if SomeEntry(ps, true, client, m) { SomeEntryOf(ps, qs, true, client, m); }
    if SomeEntry(ps, false, client, m) { SomeEntryOf(ps, qs, false, client, m); }
  }
}

/**
 A websocket session's subscriptions: the groups the session remembers, and the groups its channel
 is a member of.
 */
module Subscriptions {
  import opened Helpers

  type Group = string

  /** The ids asked for under one group name, or something that is not a list. */
  datatype Ids = AList(ids: seq<string>) | NotAList

  datatype Ask = Ask(name: string, ids: Ids)

  /** A message: its token, and the groups it asks for if it names any. */
  datatype Message = Message(token: Option<string>, groups: Option<seq<Ask>>)

  /** What the session holds and, for every channel, the groups it is a member of. */
  datatype State = State(token: Option<string>, groups: Option<set<Group>>, members: map<string, set<Group>>)

  /** How a group name and an id make a group, and whether the user may see it. */
  datatype Policy = Policy(name: (string, string) -> Group, allowed: (string, string) -> bool)

  datatype Reply = Denied | Silent | Changed(current: set<Group>, left: set<Group>, joined: set<Group>)

  function Remembered(s: State): set<Group> {
    if s.groups.Some? then s.groups.value else {}
  }

  function MembersOf(s: State, channel: string): set<Group> {
    if channel in s.members then s.members[channel] else {}
  }

  /******* Messages *******/

  predicate IsTrusted(s: State, m: Message) {
    m.token.Some? && m.token.value != "" && s.token == m.token
  }

  predicate AllLists(groups: seq<Ask>) {
    forall i | 0 <= i < |groups| :: groups[i].ids.AList?
  }

  /** The groups asked for and allowed. */
  function Granted(policy: Policy, groups: seq<Ask>): set<Group> {
    set i, j | 0 <= i < |groups| && groups[i].ids.AList? && 0 <= j < |groups[i].ids.ids|
      && policy.allowed(groups[i].name, groups[i].ids.ids[j])
      :: policy.name(groups[i].name, groups[i].ids.ids[j])
  }

  function Receive(policy: Policy, s: State, channel: string, m: Message): (State, Reply) {
    if !IsTrusted(s, m) then (s, Denied)
    else if m.groups.None? then (s, Silent)
    else if !AllLists(m.groups.value) then (s.(groups := None), Denied)
    else
      var current, wanted := Remembered(s), Granted(policy, m.groups.value);
      (State(s.token, Some(wanted),
        s.members[channel := MembersOf(s, channel) - (current - wanted) + (wanted - current)]),
       Changed(wanted, current - wanted, wanted - current))
  }

  function Disconnect(s: State, channel: string): State {
    State(s.token, None, s.members[channel := MembersOf(s, channel) - Remembered(s)])
  }

  /******* Runs *******/

  datatype Event = Incoming(m: Message) | Closed

  function Step(policy: Policy, s: State, channel: string, e: Event): State {
    match e
    case Incoming(m) => Receive(policy, s, channel, m).0
    case Closed => Disconnect(s, channel)
  }

  function Run(policy: Policy, s: State, channel: string, events: seq<Event>): State {
    if events == [] then s
    else Step(policy, Run(policy, s, channel, events[..|events| - 1]), channel, events[|events| - 1])
  }

  /** A trusted message that asks for something that is not a list: it makes the session forget. */
  predicate Forgets(s: State, e: Event) {
    e.Incoming? && IsTrusted(s, e.m) && e.m.groups.Some? && !AllLists(e.m.groups.value)
  }

  predicate Replaces(s: State, e: Event) {
    e.Incoming? && IsTrusted(s, e.m) && e.m.groups.Some? && AllLists(e.m.groups.value)
  }

  /** The memberships the session has lost track of: all it held when it forgot, less those it has
      asked for since. */
  function Untracked(policy: Policy, s: State, channel: string, events: seq<Event>): set<Group> {
    if events == [] then {}
    else
      var n := |events| - 1;
      var before, lost := Run(policy, s, channel, events[..n]), Untracked(policy, s, channel, events[..n]);
      if Forgets(before, events[n]) then lost + Remembered(before)
      else if Replaces(before, events[n]) then lost - Granted(policy, events[n].m.groups.value)
      else lost
  }

  /** In every reachable state the channel's memberships are what the session remembers and what it
      has lost track of, and nothing else. */
  lemma {:induction false} MembershipsAreTracked(policy: Policy, s: State, channel: string, events: seq<Event>)
    requires Remembered(s) == MembersOf(s, channel) == {}
    ensures var s1 := Run(policy, s, channel, events);
            && MembersOf(s1, channel) == Remembered(s1) + Untracked(policy, s, channel, events)
            && Remembered(s1) <= MembersOf(s1, channel)
            && Untracked(policy, s, channel, events) !! Remembered(s1)
    decreases |events|
  {
    if events != [] {
      var n := |events| - 1;
      MembershipsAreTracked(policy, s, channel, events[..n]);
    }
  }

  /** A session that was granted a group, and then sent a malformed message, leaves its channel in that
      group when it closes. */
  lemma MalformedLeavesMember(policy: Policy, s: State, channel: string, name: string, id: string)
    requires Remembered(s) == MembersOf(s, channel) == {} && s.token.Some? && s.token.value != ""
    requires policy.allowed(name, id)
    ensures var asks, malformed :=
            Message(s.token, Some([Ask(name, AList([id]))])), Message(s.token, Some([Ask(name, NotAList)]));
            policy.name(name, id) in MembersOf(Run(policy, s, channel, [Incoming(asks), Incoming(malformed), Closed]),
              channel)
  {
    var asks, malformed :=
      Message(s.token, Some([Ask(name, AList([id]))])), Message(s.token, Some([Ask(name, NotAList)]));
    assert asks.groups.value[0].ids.ids[0] == id;
    assert policy.name(name, id) in Granted(policy, asks.groups.value);
    assert !AllLists(malformed.groups.value) by { assert malformed.groups.value[0].ids.NotAList?; }
    RunStep(policy, s, channel, [], Incoming(asks));
    RunStep(policy, s, channel, [Incoming(asks)], Incoming(malformed));
    RunStep(policy, s, channel, [Incoming(asks), Incoming(malformed)], Closed);
    assert [] + [Incoming(asks)] == [Incoming(asks)];
    assert [Incoming(asks)] + [Incoming(malformed)] == [Incoming(asks), Incoming(malformed)];
    assert [Incoming(asks), Incoming(malformed)] + [Closed] == [Incoming(asks), Incoming(malformed), Closed];
  }

  lemma RunStep(policy: Policy, s: State, channel: string, events: seq<Event>, e: Event)
    ensures Run(policy, s, channel, events + [e]) == Step(policy, Run(policy, s, channel, events), channel, e)
  {
    assert (events + [e])[..|events|] == events;
  }

  ghost predicate NeverForgets(policy: Policy, s: State, channel: string, events: seq<Event>) {
    events != [] ==>
      && NeverForgets(policy, s, channel, events[..|events| - 1])
      && !Forgets(Run(policy, s, channel, events[..|events| - 1]), events[|events| - 1])
  }

  /** On runs where every value asked for is a list the session remembers exactly the channel's
      memberships, and a closed session leaves none behind. */
  lemma {:induction false} ListsKeepTrack(policy: Policy, s: State, channel: string, events: seq<Event>)
    requires Remembered(s) == MembersOf(s, channel) == {} && NeverForgets(policy, s, channel, events)
    ensures var s1 := Run(policy, s, channel, events);
            && MembersOf(s1, channel) == Remembered(s1)
            && (events != [] && events[|events| - 1] == Closed ==> MembersOf(s1, channel) == {})
    decreases |events|
  {
    NothingUntracked(policy, s, channel, events);
    MembershipsAreTracked(policy, s, channel, events);
  }

  lemma {:induction false} NothingUntracked(policy: Policy, s: State, channel: string, events: seq<Event>)
    requires NeverForgets(policy, s, channel, events)
    ensures Untracked(policy, s, channel, events) == {}
    decreases |events|
  {
    if events != [] {
      NothingUntracked(policy, s, channel, events[..|events| - 1]);
    }
  }

  /** What is reported adds up: the old groups without those left and with those joined are the
      current ones, and no group is both left and joined. */
  lemma ReportsAddUp(policy: Policy, s: State, channel: string, m: Message)
    requires Receive(policy, s, channel, m).1.Changed?
    ensures var (s1, r) := Receive(policy, s, channel, m);
            && (Remembered(s) - r.left) + r.joined == r.current == Remembered(s1)
            && r.left <= Remembered(s) && r.joined !! Remembered(s)
  {
  }

  /** One channel's messages never change another channel's memberships. */
  lemma {:induction false} OthersUntouched(policy: Policy, s: State, channel: string, events: seq<Event>, other: string)
    requires other != channel
    ensures MembersOf(Run(policy, s, channel, events), other) == MembersOf(s, other)
    decreases |events|
  {
    if events != [] {
      OthersUntouched(policy, s, channel, events[..|events| - 1], other);
    }
  }

  /******* Exactly what a message does *******/

  /** The message carries the session's own token, and that is not empty. */
  ghost predicate CarriesToken(s: State, m: Message) {
    s.token.Some? && s.token.value != "" && m.token == s.token
  }

  /** A message without the session's token is denied and changes nothing; one with it that names no
      groups is ignored; one that asks for something that is not a list is denied, and the session
      forgets its groups; any other replaces them by those asked for that the policy allows, and
      changes the memberships of the channel, and of no other, by what that adds and takes away. */
  lemma ReceivesExactly(policy: Policy, s: State, channel: string, m: Message)
    ensures var (s1, reply) := Receive(policy, s, channel, m);
            if !CarriesToken(s, m) then s1 == s && reply == Denied
            else if m.groups == None then s1 == s && reply == Silent
            else if exists ask :: ask in m.groups.value && ask.ids.NotAList?
            then s1 == s.(groups := None) && reply == Denied
            else
              && reply.Changed? && s1.token == s.token && s1.groups == Some(reply.current)
              && (forall g :: g in reply.current <==>
                    exists ask, id :: ask in m.groups.value && id in ask.ids.ids && policy.allowed(ask.name, id)
                                      && policy.name(ask.name, id) == g)
              && (forall g :: g in reply.left <==> g in Remembered(s) && g !in reply.current)
              && (forall g :: g in reply.joined <==> g in reply.current && g !in Remembered(s))
              && (forall g :: g in MembersOf(s1, channel) <==>
                    g in reply.joined || (g in MembersOf(s, channel) && g !in reply.left))
              && (forall c :: c != channel ==> MembersOf(s1, c) == MembersOf(s, c))
  {
    if CarriesToken(s, m) && m.groups.Some? {
      var groups := m.groups.value;
      if AllLists(groups) {
        forall ask | ask in groups
          ensures ask.ids.AList?
        {
        }
        forall g
          ensures g in Granted(policy, groups) <==>
                  exists ask, id :: ask in groups && id in ask.ids.ids && policy.allowed(ask.name, id)
                                    && policy.name(ask.name, id) == g
        {
          GrantedExactly(policy, groups, g);
        }
      }
    }
  }

  lemma GrantedExactly(policy: Policy, groups: seq<Ask>, g: Group)
    requires AllLists(groups)
    ensures forall ask | ask in groups :: ask.ids.AList?
    ensures g in Granted(policy, groups) <==>
            exists ask, id ::
              ask in groups && id in ask.ids.ids && policy.allowed(ask.name, id) && policy.name(ask.name, id) == g
  {
    if ask, id :| ask in groups && ask.ids.AList? && id in ask.ids.ids && policy.allowed(ask.name, id)
                  && policy.name(ask.name, id) == g {
      var i :| 0 <= i < |groups| && groups[i] == ask;
      var j :| 0 <= j < |ask.ids.ids| && ask.ids.ids[j] == id;
      assert groups[i].ids.ids[j] == id;
    }
  }

  /** A session that closes remembers nothing, and its channel is out of all it remembered. */
  lemma ClosesExactly(s: State, channel: string, g: Group)
    ensures var s1 := Disconnect(s, channel);
            && s1.token == s.token && s1.groups == None
            && (g in MembersOf(s1, channel) <==> g in MembersOf(s, channel) && g !in Remembered(s))
            && (forall c :: c != channel ==> MembersOf(s1, c) == MembersOf(s, c))
  {
  }

  /******* The consumer *******/

  /** Leaving one of the groups still to leave. */
  lemma MinusStep(members: map<string, set<Group>>, channel: string, mine: set<Group>, gone: set<Group>,
                  todo: set<Group>, g: Group)
    requires todo <= gone && g in todo
    ensures var now := mine - (gone - todo);
            members[channel := now][channel := now - {g}] == members[channel := mine - (gone - (todo - {g}))]
  {
    assert (mine - (gone - todo)) - {g} == mine - (gone - (todo - {g}));
  }

  /** Joining one of the groups still to join. */
  lemma PlusStep(members: map<string, set<Group>>, channel: string, mine: set<Group>, more: set<Group>,
                 todo: set<Group>, g: Group)
    requires todo <= more && g in todo
    ensures var now := mine + (more - todo);
            members[channel := now][channel := now + {g}] == members[channel := mine + (more - (todo - {g}))]
  {
    assert (mine + (more - todo)) + {g} == mine + (more - (todo - {g}));
  }

  class EventConsumer {
    const policy: Policy
    const channel: string
    var token: Option<string>
    var groups: Option<set<Group>>
    var members: map<string, set<Group>>

    constructor (policy: Policy, channel: string, token: Option<string>, members: map<string, set<Group>>)
      ensures this.policy == policy && this.channel == channel && Session() == State(token, None, members)
    {
      this.policy, this.channel, this.token, this.members := policy, channel, token, members;
      groups := None;
    }

    function Session(): State
      reads this
    {
      State(token, groups, members)
    }

    method GroupDiscard(gone: set<Group>)
      modifies this`members
      ensures members == old(members)[channel := old(MembersOf(Session(), channel)) - gone]
    {
      ghost var before, mine := members, MembersOf(Session(), channel);
      var todo := gone;
      members := members[channel := MembersOf(Session(), channel)];
      assert mine - (gone - todo) == mine;
      while todo != {}
        invariant todo <= gone && members == before[channel := mine - (gone - todo)]
        decreases |todo|
      {
        var g :| g in todo;
        MinusStep(before, channel, mine, gone, todo, g);
        members := members[channel := members[channel] - {g}];
        todo := todo - {g};
      }
      assert gone - todo == gone;
    }

    method GroupAdd(more: set<Group>)
      modifies this`members
      ensures members == old(members)[channel := old(MembersOf(Session(), channel)) + more]
    {
      ghost var before, mine := members, MembersOf(Session(), channel);
      var todo := more;
      members := members[channel := MembersOf(Session(), channel)];
      assert mine + (more - todo) == mine;
      while todo != {}
        invariant todo <= more && members == before[channel := mine + (more - todo)]
        decreases |todo|
      {
        var g :| g in todo;
        PlusStep(before, channel, mine, more, todo, g);
        members := members[channel := members[channel] + {g}];
        todo := todo - {g};
      }
      assert more - todo == more;
    }

    /** Collects the groups a message is granted, stopping at a value that is not a list. */
    method CollectGroups(asked: seq<Ask>) returns (ok: bool, wanted: set<Group>)
      ensures ok == AllLists(asked) && (ok ==> wanted == Granted(policy, asked))
    {
      wanted := {};
      var i := 0;
      while i < |asked|
        invariant i <= |asked| && AllLists(asked[..i]) && wanted == Granted(policy, asked[..i])
      {
        if asked[i].ids.NotAList? {
          return false, wanted;
        }
        var one := GrantedIds(asked[i]);
        GrantedStep(policy, asked, i);
        wanted := wanted + one;
        i := i + 1;
      }
      assert asked[..i] == asked;
      ok := true;
    }

    method GrantedIds(ask: Ask) returns (wanted: set<Group>)
      requires ask.ids.AList?
      ensures wanted == Granted(policy, [ask])
    {
      wanted := {};
      var ids := ask.ids.ids;
      var j := 0;
      while j < |ids|
        invariant j <= |ids|
        invariant wanted == set k | 0 <= k < j && policy.allowed(ask.name, ids[k]) :: policy.name(ask.name, ids[k])
      {
        if policy.allowed(ask.name, ids[j]) {
          wanted := wanted + {policy.name(ask.name, ids[j])};
        }
        j := j + 1;
      }
      OneGranted(policy, ask, wanted);
    }

    method ReceiveJson(m: Message) returns (reply: Reply)
      modifies this
      ensures (Session(), reply) == Receive(policy, old(Session()), channel, m)
    {
      if m.token.None? || m.token.value == "" || token != m.token {
        return Denied;
      }
      if m.groups.None? {
        return Silent;
      }
      var current := if groups.Some? then groups.value else {};
      groups := None;
      var ok, wanted := CollectGroups(m.groups.value);
      if !ok {
        return Denied;
      }
      ghost var before := members;
      GroupDiscard(current - wanted);
      GroupAdd(wanted - current);
      assert members == before[channel := members[channel]];
      groups := Some(wanted);
      reply := Changed(wanted, current - wanted, wanted - current);
    }

    method Close()
      modifies this
      ensures Session() == Disconnect(old(Session()), channel)
    {
      var current := if groups.Some? then groups.value else {};
      groups := None;
      GroupDiscard(current);
    }
  }

  lemma OneGranted(policy: Policy, ask: Ask, wanted: set<Group>)
    requires ask.ids.AList?
    requires wanted == set k | 0 <= k < |ask.ids.ids| && policy.allowed(ask.name, ask.ids.ids[k]) ::
             policy.name(ask.name, ask.ids.ids[k])
    ensures wanted == Granted(policy, [ask])
  {
    forall g
      ensures g in wanted <==> g in Granted(policy, [ask])
    {
      if g in wanted {
        var k :| 0 <= k < |ask.ids.ids| && policy.allowed(ask.name, ask.ids.ids[k])
          && g == policy.name(ask.name, ask.ids.ids[k]);
        assert [ask][0].ids.ids[k] == ask.ids.ids[k];
      }
    }
  }

  lemma GrantedStep(policy: Policy, asked: seq<Ask>, i: nat)
    requires i < |asked|
    ensures Granted(policy, asked[..i + 1]) == Granted(policy, asked[..i]) + Granted(policy, [asked[i]])
  {
  }
}

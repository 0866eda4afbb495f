/** The WebSocket hub: three maps that must agree, and the simple relation they stand for. */
module Hub {

  datatype Session = Session(user: int, markets: set<int>)

  /**
   * What the hub knows: its sessions, and for each market the ids that have asked for it. An id
   * can be listed without being live, and a session can be listed for a market it does not hold.
   */
  datatype View = View(nextId: nat, sessions: map<nat, Session>, listed: set<(nat, int)>)

  const EMPTY_VIEW := View(1, map[], {})

  predicate Possible(v: View) {
    forall id | id in v.sessions :: id < v.nextId
  }

  function Registered(v: View, user: int): View {
    View(v.nextId + 1, v.sessions[v.nextId := Session(user, {})], v.listed)
  }

  predicate Holds(v: View, id: nat, market: int) {
    id in v.sessions && market in v.sessions[id].markets
  }

  /** Removing sessions takes them off the lists of the markets they hold. */
  function Removed(v: View, ids: set<nat>): View {
    v.(sessions := v.sessions - ids, listed := set p | p in v.listed && !(p.0 in ids && Holds(v, p.0, p.1)))
  }

  function WithMarkets(sessions: map<nat, Session>, id: nat, markets: set<int>): map<nat, Session> {
    if id in sessions then sessions[id := Session(sessions[id].user, markets)] else sessions
  }

  function MarketsOf(sessions: map<nat, Session>, id: nat): set<int> {
    if id in sessions then sessions[id].markets else {}
  }

  function Subscribed(v: View, id: nat, market: int): View {
    View(v.nextId, WithMarkets(v.sessions, id, MarketsOf(v.sessions, id) + {market}), v.listed + {(id, market)})
  }

  function Unsubscribed(v: View, id: nat, market: int): View {
    View(v.nextId, WithMarkets(v.sessions, id, MarketsOf(v.sessions, id) - {market}), v.listed - {(id, market)})
  }

  function SubscribedAll(v: View, id: nat, markets: seq<int>): View {
    if markets == [] then v
    else Subscribed(SubscribedAll(v, id, markets[..|markets| - 1]), id, markets[|markets| - 1])
  }

  function UnsubscribedAll(v: View, id: nat, markets: seq<int>): View {
    if markets == [] then v
    else Unsubscribed(UnsubscribedAll(v, id, markets[..|markets| - 1]), id, markets[|markets| - 1])
  }

  function OfUser(v: View, user: int): set<nat> {
    set id | id in v.sessions && v.sessions[id].user == user
  }

  /** The live sessions that are listed for a market. */
  function OfMarket(v: View, market: int): set<nat> {
    set id | id in v.sessions && (id, market) in v.listed
  }

  // ---- indexes ----

  function At(index: map<int, set<nat>>, key: int): set<nat> {
    if key in index then index[key] else {}
  }

  function Insert(index: map<int, set<nat>>, key: int, id: nat): map<int, set<nat>> {
    index[key := At(index, key) + {id}]
  }

  /** An emptied entry is dropped. */
  function Remove(index: map<int, set<nat>>, key: int, id: nat): map<int, set<nat>> {
    if key !in index then index
    else if index[key] - {id} == {} then index - {key}
    else index[key := index[key] - {id}]
  }

  predicate NoEmptyEntry(index: map<int, set<nat>>) {
    forall key | key in index :: index[key] != {}
  }

  lemma RemoveTakesOne(index: map<int, set<nat>>, key: int, id: nat, other: int)
    ensures At(Remove(index, key, id), other) == At(index, other) - if other == key then {id} else {}
    ensures NoEmptyEntry(index) ==> NoEmptyEntry(Remove(index, key, id))
  {
  }

  /** The user index holds the live sessions of each user. */
  ghost predicate UsersAgree(users: map<int, set<nat>>, v: View) {
    NoEmptyEntry(users) && forall user :: At(users, user) == OfUser(v, user)
  }

  ghost predicate MarketsAgree(markets: map<int, set<nat>>, v: View) {
    NoEmptyEntry(markets) && forall market, id :: id in At(markets, market) <==> (id, market) in v.listed
  }

  class Hub {
    var nextId: nat
    var sessions: map<nat, Session>
    var users: map<int, set<nat>>
    var markets: map<int, set<nat>>
    ghost var listed: set<(nat, int)>

    ghost function Abstract(): View
      reads this
    {
      View(nextId, sessions, listed)
    }

    ghost predicate Valid()
      reads this
    {
      Possible(Abstract()) && UsersAgree(users, Abstract()) && MarketsAgree(markets, Abstract())
    }

    constructor ()
      ensures Valid() && Abstract() == EMPTY_VIEW
    {
      nextId, sessions, users, markets, listed := 1, map[], map[], map[], {};
    }

    method Register(user: int) returns (id: nat)
      requires Valid()
      modifies this
      ensures Valid() && Abstract() == Registered(old(Abstract()), user) && id == old(nextId)
    {
      id := nextId;
      nextId := nextId + 1;
      sessions := sessions[id := Session(user, {})];
      users := Insert(users, user, id);
      forall u ensures At(users, u) == OfUser(Abstract(), u) {
        assert At(old(users), u) == OfUser(old(Abstract()), u);
      }
    }

    method RemoveSession(id: nat)
      requires Valid()
      modifies this
      ensures Valid() && Abstract() == Removed(old(Abstract()), {id})
    {
      if id !in sessions {
        NothingToRemove(Abstract(), id);
        return;
      }
      var session := sessions[id];
      sessions := sessions - {id};
      users := Remove(users, session.user, id);
      forall u ensures At(users, u) == OfUser(Abstract(), u) {
        RemoveTakesOne(old(users), session.user, id, u);
        assert At(old(users), u) == OfUser(old(Abstract()), u);
      }
      RemoveTakesOne(old(users), session.user, id, session.user);
      var rest := session.markets;
      while rest != {}
        invariant rest <= session.markets
        invariant NoEmptyEntry(markets)
        invariant forall market ::
          At(markets, market) == At(old(markets), market) - if market in session.markets - rest then {id} else {}
        invariant nextId == old(nextId) && sessions == old(sessions) - {id} && listed == old(listed)
        invariant UsersAgree(users, Abstract())
        decreases rest
      {
        var market := PickMarket(rest);
        forall other ensures At(Remove(markets, market, id), other)
          == At(old(markets), other) - if other in session.markets - (rest - {market}) then {id} else {}
        {
          RemoveTakesOne(markets, market, id, other);
        }
        RemoveTakesOne(markets, market, id, market);
        markets := Remove(markets, market, id);
        rest := rest - {market};
      }
      listed := Removed(old(Abstract()), {id}).listed;
      forall market, other ensures other in At(markets, market) <==> (other, market) in listed {
        assert other in At(old(markets), market) <==> (other, market) in old(listed);
      }
    }

    method Unregister(id: nat)
      requires Valid()
      modifies this
      ensures Valid() && Abstract() == Removed(old(Abstract()), {id})
    {
      RemoveSession(id);
    }

    method SubscribeMarkets(id: nat, list: seq<int>)
      requires Valid()
      modifies this
      ensures Valid() && Abstract() == SubscribedAll(old(Abstract()), id, list)
    {
      var i := 0;
      while i < |list|
        invariant 0 <= i <= |list|
        invariant Valid() && Abstract() == SubscribedAll(old(Abstract()), id, list[..i])
      {
        SubscribeOne(id, list[i]);
        assert list[..i + 1][..i] == list[..i];
        i := i + 1;
      }
      assert list[..i] == list;
    }

    method SubscribeOne(id: nat, market: int)
      requires Valid()
      modifies this
      ensures Valid() && Abstract() == Subscribed(old(Abstract()), id, market)
    {
      if id in sessions {
        sessions := sessions[id := Session(sessions[id].user, sessions[id].markets + {market})];
      }
      markets := Insert(markets, market, id);
      listed := listed + {(id, market)};
      forall u ensures At(users, u) == OfUser(Abstract(), u) {
        assert At(users, u) == OfUser(old(Abstract()), u);
      }
      forall m, other ensures other in At(markets, m) <==> (other, m) in listed {
        assert other in At(old(markets), m) <==> (other, m) in old(listed);
      }
    }

    method UnsubscribeMarkets(id: nat, list: seq<int>)
      requires Valid()
      modifies this
      ensures Valid() && Abstract() == UnsubscribedAll(old(Abstract()), id, list)
    {
      var i := 0;
      while i < |list|
        invariant 0 <= i <= |list|
        invariant Valid() && Abstract() == UnsubscribedAll(old(Abstract()), id, list[..i])
      {
        UnsubscribeOne(id, list[i]);
        assert list[..i + 1][..i] == list[..i];
        i := i + 1;
      }
      assert list[..i] == list;
    }

    method UnsubscribeOne(id: nat, market: int)
      requires Valid()
      modifies this
      ensures Valid() && Abstract() == Unsubscribed(old(Abstract()), id, market)
    {
      if id in sessions {
        sessions := sessions[id := Session(sessions[id].user, sessions[id].markets - {market})];
      }
      markets := Remove(markets, market, id);
      listed := listed - {(id, market)};
      forall u ensures At(users, u) == OfUser(Abstract(), u) {
        assert At(users, u) == OfUser(old(Abstract()), u);
      }
      forall m, other ensures other in At(markets, m) <==> (other, m) in listed {
        RemoveTakesOne(old(markets), market, id, m);
        assert other in At(old(markets), m) <==> (other, m) in old(listed);
      }
      RemoveTakesOne(old(markets), market, id, market);
    }

    /**
     * `failing` are the sessions whose mailbox refuses the message. `reached` are the others that
     * are live, each once; the refusing ones are removed.
     */
    method SendToSessions(targets: set<nat>, failing: set<nat>) returns (reached: seq<nat>)
      requires Valid()
      modifies this
      ensures Valid() && Abstract() == Removed(old(Abstract()), targets * failing)
      ensures forall id :: id in reached <==> id in targets && id in old(sessions) && id !in failing
      ensures forall i, j | 0 <= i < j < |reached| :: reached[i] != reached[j]
    {
      reached := [];
      var stale: seq<nat> := [];
      var rest := targets;
      while rest != {}
        invariant rest <= targets
        invariant Valid() && Abstract() == old(Abstract())
        invariant forall id :: id in reached <==> id in targets - rest && id in sessions && id !in failing
        invariant forall id :: id in stale <==> id in targets - rest && id in sessions && id in failing
        invariant forall i, j | 0 <= i < j < |reached| :: reached[i] != reached[j]
        decreases rest
      {
        var id := PickSession(rest);
        rest := rest - {id};
        if id in sessions {
          if id in failing {
            stale := stale + [id];
          } else {
            reached := reached + [id];
          }
        }
      }
      RemovedNone(Abstract());
      var i := 0;
      while i < |stale|
        invariant 0 <= i <= |stale|
        invariant Valid() && Abstract() == Removed(old(Abstract()), Ids(stale[..i]))
      {
        RemovedOneMore(old(Abstract()), Ids(stale[..i]), stale[i]);
        RemoveSession(stale[i]);
        assert stale[..i + 1] == stale[..i] + [stale[i]];
        assert Ids(stale[..i + 1]) == Ids(stale[..i]) + {stale[i]};
        i := i + 1;
      }
      assert stale[..i] == stale;
      RemovedLive(old(Abstract()), Ids(stale), targets * failing);
    }

    method BroadcastAccount(user: int, failing: set<nat>) returns (reached: seq<nat>)
      requires Valid()
      modifies this
      ensures Valid() && Abstract() == Removed(old(Abstract()), OfUser(old(Abstract()), user) * failing)
      ensures forall id :: id in reached <==> id in OfUser(old(Abstract()), user) - failing
      ensures forall i, j | 0 <= i < j < |reached| :: reached[i] != reached[j]
    {
      var targets := At(users, user);
      assert targets == OfUser(Abstract(), user);
      reached := SendToSessions(targets, failing);
    }

    method BroadcastMarket(market: int, failing: set<nat>) returns (reached: seq<nat>)
      requires Valid()
      modifies this
      ensures Valid() && Abstract() == Removed(old(Abstract()), OfMarket(old(Abstract()), market) * failing)
      ensures forall id :: id in reached <==> id in OfMarket(old(Abstract()), market) - failing
      ensures forall i, j | 0 <= i < j < |reached| :: reached[i] != reached[j]
    {
      var targets := At(markets, market);
      assert forall id :: id in targets <==> (id, market) in listed;
      ghost var was := Abstract();
      reached := SendToSessions(targets, failing);
      RemovedLive(was, OfMarket(was, market) * failing, targets * failing);
    }
  }

  function Ids(ids: seq<nat>): set<nat> {
    set id | id in ids
  }

  lemma NothingToRemove(v: View, id: nat)
    requires id !in v.sessions
    ensures Removed(v, {id}) == v
  {
    assert v.sessions - {id} == v.sessions;
  }

  lemma RemovedNone(v: View)
    ensures Removed(v, {}) == v
  {
  }

  lemma RemovedOneMore(v: View, ids: set<nat>, id: nat)
    ensures Removed(Removed(v, ids), {id}) == Removed(v, ids + {id})
  {
    assert v.sessions - ids - {id} == v.sessions - (ids + {id});
    assert forall p <- v.listed ::
      (p in Removed(v, ids).listed && !(p.0 == id && Holds(Removed(v, ids), p.0, p.1)))
      == (p in Removed(v, ids + {id}).listed);
  }

  /** Only the live ids of a set make a difference. */
  lemma RemovedLive(v: View, some: set<nat>, all: set<nat>)
    requires some <= all && forall id | id in all && id !in some :: id !in v.sessions
    ensures Removed(v, some) == Removed(v, all)
  {
    assert v.sessions - some == v.sessions - all;
  }

  lemma SomeMarket(markets: set<int>)
    ensures markets == {} || exists market :: market in markets
  {
    if forall market :: market !in markets {
      assert markets == {};
    }
  }

  method PickMarket(markets: set<int>) returns (market: int)
    requires markets != {}
    ensures market in markets
  {
    SomeMarket(markets);
    market :| market in markets;
  }

  method PickSession(ids: set<nat>) returns (id: nat)
    requires ids != {}
    ensures id in ids
  {
    id :| id in ids;
  }

  // ---- runs ----

  datatype Action =
    | Register(user: int)
    | Unregister(id: nat)
    | Subscribe(id: nat, markets: seq<int>)
    | Unsubscribe(id: nat, markets: seq<int>)
    | BroadcastAccount(user: int, failing: set<nat>)
    | BroadcastMarket(market: int, failing: set<nat>)

  function Next(v: View, a: Action): View {
    match a
    case Register(user) => Registered(v, user)
    case Unregister(id) => Removed(v, {id})
    case Subscribe(id, markets) => SubscribedAll(v, id, markets)
    case Unsubscribe(id, markets) => UnsubscribedAll(v, id, markets)
    case BroadcastAccount(user, failing) => Removed(v, OfUser(v, user) * failing)
    case BroadcastMarket(market, failing) => Removed(v, OfMarket(v, market) * failing)
  }

  function Resumed(v: View, actions: seq<Action>): View {
    if actions == [] then v else Next(Resumed(v, actions[..|actions| - 1]), actions[|actions| - 1])
  }

  function Run(actions: seq<Action>): View {
    Resumed(EMPTY_VIEW, actions)
  }

  /** The latest request that names the id and the market, if any: whether it was to subscribe. */
  predicate LastWord(actions: seq<Action>, id: nat, market: int) {
    if actions == [] then false
    else
      var last := actions[|actions| - 1];
      if last.Subscribe? && last.id == id && market in last.markets then true
      else if last.Unsubscribe? && last.id == id && market in last.markets then false
      else LastWord(actions[..|actions| - 1], id, market)
  }

  lemma {:induction false} SubscribingAll(v: View, id: nat, markets: seq<int>, other: nat, market: int)
    ensures var n := SubscribedAll(v, id, markets);
      && n.nextId == v.nextId && n.sessions.Keys == v.sessions.Keys
      && ((other, market) in n.listed <==> (other, market) in v.listed || (other == id && market in markets))
      && (Holds(n, other, market)
          <==> Holds(v, other, market) || (other == id && id in v.sessions && market in markets))
  {
    if markets != [] {
      SubscribingAll(v, id, markets[..|markets| - 1], other, market);
      assert markets == markets[..|markets| - 1] + [markets[|markets| - 1]];
    }
  }

  lemma {:induction false} UnsubscribingAll(v: View, id: nat, markets: seq<int>, other: nat, market: int)
    ensures var n := UnsubscribedAll(v, id, markets);
      && n.nextId == v.nextId && n.sessions.Keys == v.sessions.Keys
      && ((other, market) in n.listed <==> (other, market) in v.listed && !(other == id && market in markets))
      && (Holds(n, other, market) <==> Holds(v, other, market) && !(other == id && market in markets))
  {
    if markets != [] {
      UnsubscribingAll(v, id, markets[..|markets| - 1], other, market);
      assert markets == markets[..|markets| - 1] + [markets[|markets| - 1]];
    }
  }

  lemma NextIdGrows(v: View, a: Action)
    ensures Next(v, a).nextId >= v.nextId
    ensures a.Register? ==> Next(v, a).nextId == v.nextId + 1 && v.nextId in Next(v, a).sessions
    ensures forall id | id in Next(v, a).sessions :: id in v.sessions || (a.Register? && id == v.nextId)
  {
    if a.Subscribe? {
      SubscribingAll(v, a.id, a.markets, 0, 0);
    } else if a.Unsubscribe? {
      UnsubscribingAll(v, a.id, a.markets, 0, 0);
    }
  }

  lemma NextIsPossible(v: View, a: Action)
    requires Possible(v)
    ensures Possible(Next(v, a))
  {
    NextIdGrows(v, a);
  }

  lemma {:induction false} EveryRunIsPossible(actions: seq<Action>)
    ensures Possible(Run(actions))
  {
    if actions != [] {
      EveryRunIsPossible(actions[..|actions| - 1]);
      NextIsPossible(Run(actions[..|actions| - 1]), actions[|actions| - 1]);
    }
  }

  /**
   * In every run, whatever ids the requests name, a live session receives a market's messages
   * exactly when the latest request about it and the market was to subscribe.
   */
  lemma {:induction false} LiveSessionsHearTheirLastWord(actions: seq<Action>, id: nat, market: int)
    requires id >= Run(actions).nextId || id in Run(actions).sessions
    ensures (id, market) in Run(actions).listed <==> LastWord(actions, id, market)
    ensures id in Run(actions).sessions ==> (id in OfMarket(Run(actions), market) <==> LastWord(actions, id, market))
  {
    if actions != [] {
      var init, last := actions[..|actions| - 1], actions[|actions| - 1];
      NextIdGrows(Run(init), last);
      EveryRunIsPossible(init);
      LiveSessionsHearTheirLastWord(init, id, market);
      if last.Subscribe? {
        SubscribingAll(Run(init), last.id, last.markets, id, market);
      } else if last.Unsubscribe? {
        UnsubscribingAll(Run(init), last.id, last.markets, id, market);
      }
    }
  }

  /** The index agrees with the sessions: a live session is listed for exactly the markets it holds. */
  predicate Agrees(v: View, id: nat, market: int) {
    (id, market) in v.listed <==> Holds(v, id, market)
  }

  /**
   * One action breaks that only by registering an id that is listed already, that is, one that
   * a request has named before it was handed out.
   */
  lemma AgreementBreaksIff(v: View, a: Action, id: nat, market: int)
    requires Possible(v) && id in Next(v, a).sessions
    requires id in v.sessions ==> Agrees(v, id, market)
    ensures Agrees(Next(v, a), id, market) <==> !(a.Register? && id == v.nextId && (id, market) in v.listed)
  {
    NextIdGrows(v, a);
    if a.Subscribe? {
      SubscribingAll(v, a.id, a.markets, id, market);
    } else if a.Unsubscribe? {
      UnsubscribingAll(v, a.id, a.markets, id, market);
    }
  }

  /**
   * A run that does: a market is asked for under the first id before that id is handed out. Its
   * session then receives the market's messages without holding the market.
   */
  lemma NamedTooEarly(user: int, market: int)
    ensures var v := Run([Subscribe(1, [market]), Register(user)]);
      1 in OfMarket(v, market) && !Holds(v, 1, market)
  {
    var actions := [Subscribe(1, [market]), Register(user)];
    assert actions[..1] == [Subscribe(1, [market])];
    assert Run(actions[..1]) == SubscribedAll(Run([]), 1, [market]) by {
      assert actions[..1][..0] == [];
    }
    assert SubscribedAll(EMPTY_VIEW, 1, [market]) == Subscribed(EMPTY_VIEW, 1, market) by {
      assert [market][..0] == [];
    }
    assert Run(actions) == Registered(Run(actions[..1]), user);
    assert 1 in Run(actions).sessions && (1, market) in Run(actions).listed;
  }

  /** Requests name only ids that have been handed out, as sessions do. */
  predicate WellAddressed(actions: seq<Action>) {
    forall i | 0 <= i < |actions| ::
      (actions[i].Subscribe? || actions[i].Unsubscribe?) ==> actions[i].id < Run(actions[..i]).nextId
  }

  lemma Shorter(actions: seq<Action>)
    requires actions != [] && WellAddressed(actions)
    ensures WellAddressed(actions[..|actions| - 1])
  {
    var init := actions[..|actions| - 1];
    forall i | 0 <= i < |init| ensures init[i] == actions[i] && init[..i] == actions[..i] {
    }
  }

  lemma {:induction false} UnknownIsNotListed(actions: seq<Action>, id: nat, market: int)
    requires WellAddressed(actions) && id >= Run(actions).nextId
    ensures (id, market) !in Run(actions).listed
  {
    if actions != [] {
      var init, last := actions[..|actions| - 1], actions[|actions| - 1];
      Shorter(actions);
      NextIdGrows(Run(init), last);
      UnknownIsNotListed(init, id, market);
      assert actions[..|actions| - 1] == init;
      if last.Subscribe? {
        SubscribingAll(Run(init), last.id, last.markets, id, market);
      } else if last.Unsubscribe? {
        UnsubscribingAll(Run(init), last.id, last.markets, id, market);
      }
    }
  }

  /** So with sessions that use their own ids, index and sessions agree in every run, late requests included. */
  lemma {:induction false} IndexAgrees(actions: seq<Action>, id: nat, market: int)
    requires WellAddressed(actions) && id in Run(actions).sessions
    ensures Agrees(Run(actions), id, market)
  {
    if actions != [] {
      var init, last := actions[..|actions| - 1], actions[|actions| - 1];
      Shorter(actions);
      NextIdGrows(Run(init), last);
      EveryRunIsPossible(init);
      if id in Run(init).sessions {
        IndexAgrees(init, id, market);
      } else {
        UnknownIsNotListed(init, id, market);
      }
      AgreementBreaksIff(Run(init), last, id, market);
    }
  }

  /** A removed session stays removed: its id is not handed out again. */
  lemma {:induction false} DeadStayDead(v: View, actions: seq<Action>, id: nat)
    requires Possible(v) && id < v.nextId && id !in v.sessions
    ensures Possible(Resumed(v, actions)) && id < Resumed(v, actions).nextId && id !in Resumed(v, actions).sessions
  {
    if actions != [] {
      DeadStayDead(v, actions[..|actions| - 1], id);
      NextIsPossible(Resumed(v, actions[..|actions| - 1]), actions[|actions| - 1]);
      NextIdGrows(Resumed(v, actions[..|actions| - 1]), actions[|actions| - 1]);
    }
  }

  // ---- who is listening ----

  /** The users that a run has registered, in order. */
  function Registrations(actions: seq<Action>): seq<int> {
    if actions == [] then []
    else
      var last := actions[|actions| - 1];
      Registrations(actions[..|actions| - 1]) + if last.Register? then [last.user] else []
  }

  lemma {:induction false} SubscribingKeepsUsers(v: View, id: nat, markets: seq<int>, other: nat)
    requires other in v.sessions
    ensures other in SubscribedAll(v, id, markets).sessions
    ensures SubscribedAll(v, id, markets).sessions[other].user == v.sessions[other].user
  {
    if markets != [] {
      SubscribingKeepsUsers(v, id, markets[..|markets| - 1], other);
    }
  }

  lemma {:induction false} UnsubscribingKeepsUsers(v: View, id: nat, markets: seq<int>, other: nat)
    requires other in v.sessions
    ensures other in UnsubscribedAll(v, id, markets).sessions
    ensures UnsubscribedAll(v, id, markets).sessions[other].user == v.sessions[other].user
  {
    if markets != [] {
      UnsubscribingKeepsUsers(v, id, markets[..|markets| - 1], other);
    }
  }

  /** What takes a live session out: its own removal, or a broadcast to it that it refuses. */
  predicate TakesOut(v: View, a: Action, id: nat)
    requires id in v.sessions
  {
    match a
    case Unregister(gone) => gone == id
    case BroadcastAccount(user, failing) => v.sessions[id].user == user && id in failing
    case BroadcastMarket(market, failing) => (id, market) in v.listed && id in failing
    case _ => false
  }

  /** A session is live after a step exactly if it was and was not taken out, or is the one registered. */
  lemma LiveIff(v: View, a: Action, id: nat)
    requires Possible(v)
    ensures id in Next(v, a).sessions <==>
      (id in v.sessions && !TakesOut(v, a, id)) || (a.Register? && id == v.nextId)
    ensures id in v.sessions && id in Next(v, a).sessions ==> Next(v, a).sessions[id].user == v.sessions[id].user
  {
    if a.Subscribe? {
      SubscribingAll(v, a.id, a.markets, 0, 0);
      if id in v.sessions {
        SubscribingKeepsUsers(v, a.id, a.markets, id);
      }
    } else if a.Unsubscribe? {
      UnsubscribingAll(v, a.id, a.markets, 0, 0);
      if id in v.sessions {
        UnsubscribingKeepsUsers(v, a.id, a.markets, id);
      }
    }
  }

  lemma NextIdCounts(v: View, a: Action)
    ensures Next(v, a).nextId == v.nextId + if a.Register? then 1 else 0
  {
    if a.Subscribe? {
      SubscribingAll(v, a.id, a.markets, 0, 0);
    } else if a.Unsubscribe? {
      UnsubscribingAll(v, a.id, a.markets, 0, 0);
    }
  }

  /**
   * In every run the ids handed out count the registrations, and a live id is its user's exactly
   * if the registration that handed it out named that user.
   */
  lemma {:induction false} SessionsAreTheirUsers(actions: seq<Action>, id: nat)
    ensures Run(actions).nextId == |Registrations(actions)| + 1
    ensures id in Run(actions).sessions ==>
      && 1 <= id <= |Registrations(actions)|
      && Run(actions).sessions[id].user == Registrations(actions)[id - 1]
      && forall user :: id in OfUser(Run(actions), user) <==> user == Registrations(actions)[id - 1]
  {
    if actions != [] {
      var init, last := actions[..|actions| - 1], actions[|actions| - 1];
      SessionsAreTheirUsers(init, id);
      EveryRunIsPossible(init);
      NextIdCounts(Run(init), last);
      LiveIff(Run(init), last, id);
    }
  }
}

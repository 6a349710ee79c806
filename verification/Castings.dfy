/** Who answers on the network: receivers held under ids of their own, changed by several threads,
    and a feed of changes that subscribers replay. */
module Castings {
  import opened Wrappers

  const RECEIVER_IDS_FROM: nat := 0xE000_0000
  const U32_MAX: nat := 0xFFFF_FFFF

  type SinkId = nat
  type CastId = string
  type Address = nat

  datatype Found = Found(id: CastId, at: Address)
  datatype Device = Device(found: Found, volume: Option<int>)
  datatype Change = Added(id: SinkId) | Removed(id: SinkId) | Reformatted(id: SinkId)

  datatype Known = Known(next: nat, held: map<SinkId, Device>, named: map<string, CastId>, addressed: set<SinkId>)

  /** What is done to what is known while it is locked. */
  datatype Doing =
    | Admitting(device: Device, fullname: Option<string>, byAddress: bool)
    | Relabelling(sink: SinkId, found: Found, fullname: Option<string>)
    | Remembering(fullname: Option<string>, id: CastId)
    | Forgetting(name: string, located: set<Address>)
    | ForgettingAt(at: Address)
    | ForgettingUnlocated(located: set<Address>)
    | Resting

  lemma {:induction false} LeastIsThere(ids: set<SinkId>)
    requires ids != {}
    ensures exists least :: IsLeast(least, ids)
    decreases |ids|
  {
    var one :| one in ids;
    var rest := ids - {one};
    if rest == {} {
      assert ids == {one};
      assert IsLeast(one, ids);
    } else {
      LeastIsThere(rest);
      var other :| IsLeast(other, rest);
      var least := if one < other then one else other;
      forall id: SinkId | id in ids
        ensures least <= id
      {
        if id != one {
          assert id in rest;
        }
      }
      assert IsLeast(least, ids);
    }
  }

  ghost predicate IsLeast(least: SinkId, ids: set<SinkId>) {
    least in ids && forall id: SinkId :: id in ids ==> least <= id
  }

  function LeastOf(ids: set<SinkId>): (least: SinkId)
    requires ids != {}
    ensures IsLeast(least, ids)
  {
    LeastIsThere(ids);
    assert forall one: SinkId, other: SinkId :: IsLeast(one, ids) && IsLeast(other, ids) ==> one == other;
    var least :| least in ids && forall id: SinkId :: id in ids ==> least <= id;
    least
  }

  ghost predicate Ascends(ascending: seq<SinkId>, ids: set<SinkId>) {
    && (forall id: SinkId :: id in ascending <==> id in ids)
    && forall i, j :: 0 <= i < j < |ascending| ==> ascending[i] < ascending[j]
  }

  lemma LeastGoesFirst(ids: set<SinkId>, least: SinkId, rest: seq<SinkId>)
    requires IsLeast(least, ids) && Ascends(rest, ids - {least})
    ensures Ascends([least] + rest, ids)
  {
    var all := [least] + rest;
    forall k | 0 <= k < |rest| ensures rest[k] in ids && least < rest[k] {
      assert rest[k] in rest && rest[k] in ids - {least};
    }
    forall i, j | 0 <= i < j < |all| ensures all[i] < all[j] {
      assert all[j] == rest[j - 1];
      if i > 0 {
        assert all[i] == rest[i - 1];
      }
    }
    forall id: SinkId ensures id in all <==> id in ids {
      assert id in all <==> id == least || id in rest;
    }
  }

  /** The ids from the least to the greatest. */
  function Ascending(ids: set<SinkId>): (ascending: seq<SinkId>)
    ensures Ascends(ascending, ids)
    decreases |ids|
  {
    if ids == {} then []
    else
      var least := LeastOf(ids);
      var rest := Ascending(ids - {least});
      LeastGoesFirst(ids, least, rest);
      [least] + rest
  }

  function First(ids: set<SinkId>): (first: Option<SinkId>)
    ensures first.None? <==> ids == {}
    ensures first.Some? ==> first.value in ids && forall id: SinkId :: id in ids ==> first.value <= id
  {
    if ids == {} then None
    else
      var ascending := Ascending(ids);
      assert ascending != [] by {
        var id :| id in ids;
        assert id in ascending;
      }
      assert ascending[0] in ascending;
      Some(ascending[0])
  }

  function Going(ids: set<SinkId>): (changes: seq<Change>)
    ensures |changes| == |Ascending(ids)|
    ensures forall k :: 0 <= k < |changes| ==> changes[k] == Removed(Ascending(ids)[k])
  {
    var ascending := Ascending(ids);
    seq(|ascending|, k requires 0 <= k < |ascending| => Removed(ascending[k]))
  }

  function Minted(next: nat): (id: SinkId) {
    if RECEIVER_IDS_FROM + next < U32_MAX then RECEIVER_IDS_FROM + next else U32_MAX
  }

  function Called(named: map<string, CastId>, fullname: Option<string>, id: CastId): (called: map<string, CastId>) {
    if fullname.Some? then named[fullname.value := id] else named
  }

  function HeldAs(held: map<SinkId, Device>, id: CastId): (ids: set<SinkId>) {
    set sink | sink in held && held[sink].found.id == id
  }

  function Without(known: Known, gone: set<SinkId>): (left: Known) {
    known.(held := known.held - gone, addressed := known.addressed - gone)
  }

  /** Those reached by an address alone, and no longer wanted there. */
  function GoneFrom(known: Known, at: Address): (gone: set<SinkId>) {
    set id | id in known.held && known.held[id].found.at == at && id in known.addressed
             && known.held[id].found.id !in known.named.Values
  }

  function GoneOutside(known: Known, located: set<Address>): (gone: set<SinkId>) {
    set id | id in known.held && known.held[id].found.at !in located
  }

  /** What is known once a thing is done, and the changes it then announces. */
  function Done(known: Known, doing: Doing): (done: (Known, seq<Change>)) {
    match doing
    case Admitting(device, fullname, byAddress) =>
      var same := First(HeldAs(known.held, device.found.id));
      var id := if same.Some? then same.value else Minted(known.next);
      var addressed := if byAddress then known.addressed + {id} else known.addressed;
      var next := if same.Some? || known.next == U32_MAX then known.next else known.next + 1;
      (Known(next, known.held[id := device], Called(known.named, fullname, device.found.id), addressed),
       if same.Some? then [] else [Added(id)])
    case Relabelling(sink, found, fullname) =>
      var named := known.(named := Called(known.named, fullname, found.id));
      if sink in known.held then
        (named.(held := known.held[sink := known.held[sink].(found := found)]), [Reformatted(sink)])
      else (named, [])
    case Remembering(fullname, id) =>
      (known.(named := Called(known.named, fullname, id)), [])
    case Forgetting(name, located) =>
      if name !in known.named then (known, [])
      else
        var unnamed := known.(named := known.named - {name});
        var held := First(HeldAs(known.held, known.named[name]));
        if held.None? || (held.value in known.addressed && known.held[held.value].found.at in located)
        then (unnamed, [])
        else (Without(unnamed, {held.value}), [Removed(held.value)])
    case ForgettingAt(at) =>
      var gone := GoneFrom(known, at);
      (Without(known, gone), Going(gone))
    case ForgettingUnlocated(located) =>
      var gone := GoneOutside(known, located);
      (Without(known.(named := map[]), gone), Going(gone))
    case Resting =>
      (Known(known.next, map[], map[], {}), Going(known.held.Keys))
  }

  /** Ids addressed are held, and none held is yet to be minted. */
  ghost predicate Sound(known: Known) {
    && known.next <= U32_MAX
    && known.addressed <= known.held.Keys
    && forall id: SinkId :: id in known.held ==> id < RECEIVER_IDS_FROM + known.next
  }

  /** Every id minted so far is one of its own. */
  ghost predicate WithinLimit(known: Known) {
    RECEIVER_IDS_FROM + known.next <= U32_MAX + 1
  }

  ghost predicate AllRemoved(changes: seq<Change>, gone: set<SinkId>) {
    && (forall id: SinkId :: id in gone <==> Removed(id) in changes)
    && (forall change :: change in changes ==> change.Removed?)
    && (forall i, j :: 0 <= i < j < |changes| ==> changes[i] != changes[j])
  }

  /** What the changes say of the ids held: one more, never held before; some fewer, each once; or
      the same. */
  ghost predicate Says(changes: seq<Change>, before: Known, after: Known) {
    || (changes == [Added(Minted(before.next))]
        && after.held.Keys == before.held.Keys + {Minted(before.next)}
        && (WithinLimit(after) ==> after.next == before.next + 1 && Minted(before.next) !in before.held))
    || (after.next == before.next && after.held.Keys <= before.held.Keys
        && AllRemoved(changes, before.held.Keys - after.held.Keys))
    || (after.next == before.next && after.held.Keys == before.held.Keys
        && |changes| == 1 && changes[0].Reformatted?)
  }

  lemma GoingSays(gone: set<SinkId>)
    ensures AllRemoved(Going(gone), gone)
  {
    var changes, ascending := Going(gone), Ascending(gone);
    forall id: SinkId
      ensures id in gone <==> Removed(id) in changes
    {
      if id in gone {
        assert id in ascending;
        var k :| 0 <= k < |ascending| && ascending[k] == id;
        assert changes[k] == Removed(id);
      }
    }
  }

  lemma AdmittingSays(known: Known, device: Device, fullname: Option<string>, byAddress: bool)
    requires Sound(known)
    ensures var done := Done(known, Admitting(device, fullname, byAddress));
      Sound(done.0) && Says(done.1, known, done.0)
  {
    var same := First(HeldAs(known.held, device.found.id));
    var id := if same.Some? then same.value else Minted(known.next);
    assert known.held[id := device].Keys == known.held.Keys + {id};
    if same.Some? {
      assert known.held.Keys + {id} == known.held.Keys;
      assert AllRemoved([], {});
    }
  }

  lemma LeavingSays(known: Known, gone: set<SinkId>, named: map<string, CastId>, changes: seq<Change>)
    requires Sound(known) && gone <= known.held.Keys && AllRemoved(changes, gone)
    ensures var left := Without(known.(named := named), gone);
      Sound(left) && Says(changes, known, left)
  {
    var left := Without(known.(named := named), gone);
    assert left.held.Keys == known.held.Keys - gone;
    assert known.held.Keys - left.held.Keys == gone;
  }

  lemma ForgettingSays(known: Known, name: string, located: set<Address>)
    requires Sound(known)
    ensures var done := Done(known, Forgetting(name, located));
      Sound(done.0) && Says(done.1, known, done.0)
  {
    assert AllRemoved([], {});
    if name in known.named {
      var named := known.named - {name};
      var held := First(HeldAs(known.held, known.named[name]));
      if held.Some? {
        assert AllRemoved([Removed(held.value)], {held.value});
        LeavingSays(known, {held.value}, named, [Removed(held.value)]);
      }
    }
  }

  /** Whatever is done, ids addressed stay held and the changes say what became of the ids held. */
  lemma DoneSays(known: Known, doing: Doing)
    requires Sound(known)
    ensures Sound(Done(known, doing).0) && Says(Done(known, doing).1, known, Done(known, doing).0)
  {
    match doing
    case Admitting(device, fullname, byAddress) =>
      AdmittingSays(known, device, fullname, byAddress);
    case Relabelling(sink, found, fullname) =>
      assert AllRemoved([], {});
      if sink in known.held {
        assert known.held[sink := known.held[sink].(found := found)].Keys == known.held.Keys;
      }
    case Remembering(fullname, id) =>
      assert AllRemoved([], {});
    case Forgetting(name, located) =>
      ForgettingSays(known, name, located);
    case ForgettingAt(at) =>
      GoingSays(GoneFrom(known, at));
      LeavingSays(known, GoneFrom(known, at), known.named, Going(GoneFrom(known, at)));
    case ForgettingUnlocated(located) =>
      GoingSays(GoneOutside(known, located));
      LeavingSays(known, GoneOutside(known, located), map[], Going(GoneOutside(known, located)));
    case Resting =>
      GoingSays(known.held.Keys);
  }

  /** An id is minted anew exactly while the ids do not run out. */
  lemma MintedAnew(next: nat)
    ensures (forall earlier: nat :: earlier < next ==> Minted(earlier) != Minted(next))
      <==> RECEIVER_IDS_FROM + next <= U32_MAX
  {
    if RECEIVER_IDS_FROM + next > U32_MAX {
      var earlier: nat := next - 1;
      assert Minted(earlier) == Minted(next);
    }
  }

  /** What is known, changed in place by whoever has locked it. */
  class Registry {
    var next: nat
    var held: map<SinkId, Device>
    var named: map<string, CastId>
    var addressed: set<SinkId>

    ghost function Now(): (known: Known)
      reads this
    {
      Known(next, held, named, addressed)
    }

    constructor ()
      ensures Now() == Known(0, map[], map[], {}) && Sound(Now())
    {
      next, held, named, addressed := 0, map[], map[], {};
    }

    method Call(fullname: Option<string>, id: CastId)
      modifies this`named
      ensures named == Called(old(named), fullname, id)
    {
      if fullname.Some? {
        named := named[fullname.value := id];
      }
    }

    method Admit(device: Device, fullname: Option<string>, byAddress: bool) returns (changes: seq<Change>)
      modifies this
      ensures (Now(), changes) == Done(old(Now()), Admitting(device, fullname, byAddress))
    {
      Call(fullname, device.found.id);
      var same := FoundAs(held, device.found.id);
      var id;
      if same.Some? {
        id, changes := same.value, [];
      } else {
        id := Minted(next);
        next := if next == U32_MAX then next else next + 1;
        changes := [Added(id)];
      }
      if byAddress {
        addressed := addressed + {id};
      }
      held := held[id := device];
    }

    method Relabel(sink: SinkId, found: Found, fullname: Option<string>) returns (changes: seq<Change>)
      modifies this
      ensures (Now(), changes) == Done(old(Now()), Relabelling(sink, found, fullname))
    {
      Call(fullname, found.id);
      changes := [];
      if sink in held {
        held := held[sink := held[sink].(found := found)];
        changes := [Reformatted(sink)];
      }
    }

    method Remember(fullname: Option<string>, id: CastId)
      modifies this
      ensures (Now(), []) == Done(old(Now()), Remembering(fullname, id))
    {
      Call(fullname, id);
    }

    method Forget(name: string, located: set<Address>) returns (changes: seq<Change>)
      modifies this
      ensures (Now(), changes) == Done(old(Now()), Forgetting(name, located))
    {
      if name !in named {
        return [];
      }
      var id := named[name];
      named := named - {name};
      var sink := FoundAs(held, id);
      if sink.None? {
        return [];
      }
      if sink.value in addressed && held[sink.value].found.at in located {
        return [];
      }
      held := held - {sink.value};
      addressed := addressed - {sink.value};
      changes := [Removed(sink.value)];
    }

    method ForgetAt(at: Address) returns (changes: seq<Change>)
      modifies this
      ensures (Now(), changes) == Done(old(Now()), ForgettingAt(at))
    {
      var devices, reached, browsed := held, addressed, named.Values;
      var gone := Which(devices.Keys, GoneFrom(Now(), at), id =>
        id in devices && devices[id].found.at == at && id in reached && devices[id].found.id !in browsed);
      changes := LetGo(gone);
    }

    method ForgetUnlocated(located: set<Address>) returns (changes: seq<Change>)
      modifies this
      ensures (Now(), changes) == Done(old(Now()), ForgettingUnlocated(located))
    {
      var devices := held;
      named := map[];
      var gone := Which(devices.Keys, GoneOutside(Now(), located), id =>
        id in devices && devices[id].found.at !in located);
      changes := LetGo(gone);
    }

    method Rest() returns (changes: seq<Change>)
      modifies this
      ensures (Now(), changes) == Done(old(Now()), Resting)
    {
      changes := Going(held.Keys);
      held, named, addressed := map[], map[], {};
    }

    /** Those that go, one after another. */
    method LetGo(gone: set<SinkId>) returns (changes: seq<Change>)
      modifies this`held, this`addressed
      ensures Now() == Without(old(Now()), gone) && changes == Going(gone)
    {
      var ascending := Ascending(gone);
      for k := 0 to |ascending|
        invariant held == old(held) - Prefix(ascending, k) && addressed == old(addressed) - Prefix(ascending, k)
      {
        held := held - {ascending[k]};
        addressed := addressed - {ascending[k]};
      }
      assert Prefix(ascending, |ascending|) == gone;
      changes := Going(gone);
    }
  }

  function Prefix(ids: seq<SinkId>, n: nat): (prefix: set<SinkId>)
    requires n <= |ids|
  {
    set k | 0 <= k < n :: ids[k]
  }

  /** The first held that goes by an id. */
  method FoundAs(held: map<SinkId, Device>, id: CastId) returns (sink: Option<SinkId>)
    ensures sink == First(HeldAs(held, id))
  {
    var ascending := Ascending(held.Keys);
    for k := 0 to |ascending|
      invariant forall j :: 0 <= j < k ==> ascending[j] !in HeldAs(held, id)
    {
      assert ascending[k] in ascending;
      if held[ascending[k]].found.id == id {
        forall other | other in HeldAs(held, id)
          ensures ascending[k] <= other
        {
          assert other in ascending;
          var m :| 0 <= m < |ascending| && ascending[m] == other;
        }
        assert ascending[k] in HeldAs(held, id);
        return Some(ascending[k]);
      }
    }
    forall other | other in held
      ensures other !in HeldAs(held, id)
    {
      assert other in ascending;
    }
    assert HeldAs(held, id) == {};
    sink := None;
  }

  /** Those of the ids that are to go. */
  method Which(ids: set<SinkId>, ghost going: set<SinkId>, goes: SinkId -> bool) returns (which: set<SinkId>)
    requires forall id: SinkId :: id in going <==> id in ids && goes(id)
    ensures which == going
  {
    which := {};
    var ascending := Ascending(ids);
    for k := 0 to |ascending|
      invariant which == Prefix(ascending, k) * going
    {
      assert Prefix(ascending, k + 1) == Prefix(ascending, k) + {ascending[k]};
      assert ascending[k] in ascending;
      if goes(ascending[k]) {
        which := which + {ascending[k]};
      }
    }
    forall id | id in going
      ensures id in Prefix(ascending, |ascending|)
    {
      assert id in ascending;
    }
  }

  // ---------------------------------------------------------------- threads and a subscriber

  /** What is known, the changes made to it in the order they were made, those its threads have yet
      to announce, each thread's together, and what a subscriber was told since it began. */
  datatype Shared = Shared(
    known: Known,
    begun: set<SinkId>,
    made: seq<Change>,
    pending: seq<seq<Change>>,
    told: seq<Change>)

  /** A thread makes its changes while it holds what is known, and announces them once it has let
      it go. */
  datatype Event = Does(doing: Doing) | Announces(nth: nat)

  predicate Allowed(shared: Shared, event: Event) {
    event.Announces? ==> event.nth < |shared.pending|
  }

  function After(shared: Shared, event: Event): (after: Shared)
    requires Allowed(shared, event)
  {
    match event
    case Does(doing) =>
      var done := Done(shared.known, doing);
      var pending := if done.1 == [] then shared.pending else shared.pending + [done.1];
      shared.(known := done.0, made := shared.made + done.1, pending := pending)
    case Announces(nth) =>
      shared.(
        told := shared.told + shared.pending[nth],
        pending := shared.pending[..nth] + shared.pending[nth + 1..])
  }

  predicate AllAllowed(shared: Shared, events: seq<Event>)
    decreases |events|
  {
    events == [] || (Allowed(shared, events[0]) && AllAllowed(After(shared, events[0]), events[1..]))
  }

  function AfterAll(shared: Shared, events: seq<Event>): (after: Shared)
    requires AllAllowed(shared, events)
    decreases |events|
  {
    if events == [] then shared else AfterAll(After(shared, events[0]), events[1..])
  }

  predicate Beginning(shared: Shared) {
    shared.begun == shared.known.held.Keys && shared.made == [] && shared.pending == [] && shared.told == []
  }

  function Together(pending: seq<seq<Change>>): (together: multiset<Change>)
    decreases |pending|
  {
    if pending == [] then multiset{} else multiset(pending[0]) + Together(pending[1..])
  }

  lemma {:induction false} OneLess(pending: seq<seq<Change>>, nth: nat)
    requires nth < |pending|
    ensures Together(pending) == multiset(pending[nth]) + Together(pending[..nth] + pending[nth + 1..])
    decreases |pending|
  {
    var rest := pending[..nth] + pending[nth + 1..];
    if nth == 0 {
      assert rest == pending[1..];
    } else {
      OneLess(pending[1..], nth - 1);
      assert rest[0] == pending[0] && rest[1..] == pending[1..][..nth - 1] + pending[1..][nth..];
    }
  }

  lemma {:induction false} OneMore(pending: seq<seq<Change>>, changes: seq<Change>)
    ensures Together(pending + [changes]) == Together(pending) + multiset(changes)
    decreases |pending|
  {
    var more := pending + [changes];
    if pending == [] {
      assert more[1..] == [];
    } else {
      assert more[1..] == pending[1..] + [changes];
      OneMore(pending[1..], changes);
    }
  }

  /** Each id is added once at most and removed once at most, and is held from the one to the
      other. */
  ghost predicate Orderly(begun: set<SinkId>, held: set<SinkId>, made: multiset<Change>, minted: nat) {
    && (forall id: SinkId :: id in begun ==> id < minted && Added(id) !in made)
    && (forall id: SinkId :: Added(id) in made ==> id < minted && made[Added(id)] == 1)
    && (forall id: SinkId :: Removed(id) in made ==> (id in begun || Added(id) in made) && made[Removed(id)] == 1)
    && (forall id: SinkId :: id in held <==> (id in begun || Added(id) in made) && Removed(id) !in made)
  }

  lemma AddingKeepsOrder(begun: set<SinkId>, held: set<SinkId>, made: multiset<Change>, minted: nat)
    requires Orderly(begun, held, made, minted)
    ensures Orderly(begun, held + {minted}, made + multiset{Added(minted)}, minted + 1)
  {
    assert Added(minted) !in made && minted !in begun;
    assert Removed(minted) !in made;
  }

  lemma RemovingKeepsOrder(
    begun: set<SinkId>, held: set<SinkId>, made: multiset<Change>, minted: nat, changes: multiset<Change>,
    gone: set<SinkId>)
    requires Orderly(begun, held, made, minted) && gone <= held
    requires forall id: SinkId :: Added(id) !in changes
    requires forall id: SinkId :: changes[Removed(id)] == if id in gone then 1 else 0
    ensures Orderly(begun, held - gone, made + changes, minted)
  {
  }

  lemma RemovedOnce(changes: seq<Change>, gone: set<SinkId>)
    requires AllRemoved(changes, gone)
    ensures forall id: SinkId :: Added(id) !in multiset(changes)
    ensures forall id: SinkId :: multiset(changes)[Removed(id)] == if id in gone then 1 else 0
  {
    forall id: SinkId
      ensures multiset(changes)[Removed(id)] == if id in gone then 1 else 0
    {
      OnceOnly(changes, Removed(id));
    }
    forall id: SinkId
      ensures Added(id) !in multiset(changes)
    {
      assert Added(id) !in changes;
    }
  }

  lemma SayingKeepsOrder(begun: set<SinkId>, made: seq<Change>, changes: seq<Change>, before: Known, after: Known)
    requires Sound(before) && WithinLimit(after) && Says(changes, before, after)
    requires Orderly(begun, before.held.Keys, multiset(made), RECEIVER_IDS_FROM + before.next)
    ensures Orderly(begun, after.held.Keys, multiset(made + changes), RECEIVER_IDS_FROM + after.next)
  {
    var was, minted := multiset(made), RECEIVER_IDS_FROM + before.next;
    assert multiset(made + changes) == was + multiset(changes);
    if |changes| == 1 && changes[0].Added? {
      assert changes[0] in changes;
      assert Minted(before.next) == minted && RECEIVER_IDS_FROM + after.next == minted + 1;
      assert multiset(changes) == multiset{Added(minted)};
      AddingKeepsOrder(begun, before.held.Keys, was, minted);
    } else if |changes| == 1 && changes[0].Reformatted? {
      assert multiset(changes) == multiset{changes[0]};
      assert before.held.Keys - {} == before.held.Keys;
      RemovingKeepsOrder(begun, before.held.Keys, was, minted, multiset(changes), {});
    } else {
      var gone := before.held.Keys - after.held.Keys;
      assert after.held.Keys == before.held.Keys - gone;
      RemovedOnce(changes, gone);
      RemovingKeepsOrder(begun, before.held.Keys, was, minted, multiset(changes), gone);
    }
  }

  lemma {:induction false} OnceOnly(changes: seq<Change>, change: Change)
    requires forall i, j :: 0 <= i < j < |changes| ==> changes[i] != changes[j]
    ensures multiset(changes)[change] == if change in changes then 1 else 0
    decreases |changes|
  {
    if changes != [] {
      var before, last := changes[..|changes| - 1], changes[|changes| - 1];
      assert changes == before + [last];
      OnceOnly(before, change);
    }
  }

  /** What every event keeps. */
  ghost predicate Kept(shared: Shared) {
    && Sound(shared.known)
    && multiset(shared.made) == multiset(shared.told) + Together(shared.pending)
    && (WithinLimit(shared.known) ==>
          Orderly(shared.begun, shared.known.held.Keys, multiset(shared.made), RECEIVER_IDS_FROM + shared.known.next))
  }

  lemma DoingKeeps(shared: Shared, doing: Doing)
    requires Kept(shared)
    ensures Kept(After(shared, Does(doing)))
    ensures WithinLimit(After(shared, Does(doing)).known) ==> WithinLimit(shared.known)
  {
    var after, done := After(shared, Does(doing)), Done(shared.known, doing);
    DoneSays(shared.known, doing);
    MadeIsTold(shared.made, shared.told, shared.pending, done.1);
    if WithinLimit(after.known) {
      SayingKeepsOrder(shared.begun, shared.made, done.1, shared.known, done.0);
    }
  }

  lemma MadeIsTold(made: seq<Change>, told: seq<Change>, pending: seq<seq<Change>>, changes: seq<Change>)
    requires multiset(made) == multiset(told) + Together(pending)
    ensures multiset(made + changes)
      == multiset(told) + Together(if changes == [] then pending else pending + [changes])
  {
    OneMore(pending, changes);
    assert multiset(made + changes) == multiset(made) + multiset(changes);
  }

  lemma TellingMoves(told: seq<Change>, pending: seq<seq<Change>>, nth: nat)
    requires nth < |pending|
    ensures multiset(told) + Together(pending)
      == multiset(told + pending[nth]) + Together(pending[..nth] + pending[nth + 1..])
  {
    OneLess(pending, nth);
    assert multiset(told + pending[nth]) == multiset(told) + multiset(pending[nth]);
  }

  lemma StepKeeps(shared: Shared, event: Event)
    requires Kept(shared) && Allowed(shared, event)
    ensures Kept(After(shared, event)) && After(shared, event).begun == shared.begun
    ensures WithinLimit(After(shared, event).known) ==> WithinLimit(shared.known)
  {
    match event
    case Does(doing) => DoingKeeps(shared, doing);
    case Announces(nth) => TellingMoves(shared.told, shared.pending, nth);
  }

  /** However the threads take turns, ids addressed are ids held, and no id is ever added twice
      while the ids last. */
  lemma {:induction false} AlwaysKept(shared: Shared, events: seq<Event>)
    requires Kept(shared) && AllAllowed(shared, events)
    ensures var after := AfterAll(shared, events);
      Kept(after) && after.begun == shared.begun && after.known.addressed <= after.known.held.Keys
    decreases |events|
  {
    if events != [] {
      StepKeeps(shared, events[0]);
      AlwaysKept(After(shared, events[0]), events[1..]);
    }
  }

  lemma BeginningKept(shared: Shared)
    requires Beginning(shared) && Sound(shared.known)
    ensures Kept(shared)
  {
  }

  /** From any beginning, however the threads take turns: while the ids last no change is told
      twice, and ids addressed are ids held. */
  lemma NeverToldTwice(shared: Shared, events: seq<Event>, change: Change)
    requires Beginning(shared) && Sound(shared.known) && AllAllowed(shared, events) && !change.Reformatted?
    ensures var end := AfterAll(shared, events);
      && end.known.addressed <= end.known.held.Keys
      && (WithinLimit(end.known) ==> multiset(end.told)[change] <= 1)
  {
    BeginningKept(shared);
    AlwaysKept(shared, events);
    var end := AfterAll(shared, events);
    assert multiset(end.told)[change] <= multiset(end.made)[change];
  }

  function Heeded(keys: set<SinkId>, change: Change): (heeded: set<SinkId>) {
    match change
    case Added(id) => keys + {id}
    case Removed(id) => keys - {id}
    case Reformatted(_) => keys
  }

  /** What a subscriber holds that began with some ids and heeds each change it is told. */
  function Replayed(keys: set<SinkId>, changes: seq<Change>): (replayed: set<SinkId>)
    decreases |changes|
  {
    if changes == [] then keys
    else Heeded(Replayed(keys, changes[..|changes| - 1]), changes[|changes| - 1])
  }

  /** It is told that an id went before it is told that it came. */
  ghost predicate ToldBackwards(changes: seq<Change>, id: SinkId) {
    exists i, j :: 0 <= i < j < |changes| && changes[i] == Removed(id) && changes[j] == Added(id)
  }

  /** Where an id came once at most and went once at most, it is held after a replay exactly if it
      came or was there, and went never or too early. */
  lemma {:induction false} ReplayedHolds(begun: set<SinkId>, changes: seq<Change>, id: SinkId)
    requires multiset(changes)[Added(id)] <= 1 && multiset(changes)[Removed(id)] <= 1
    requires id in begun ==> Added(id) !in changes
    ensures id in Replayed(begun, changes) <==>
      (id in begun || Added(id) in changes) && (Removed(id) in changes ==> ToldBackwards(changes, id))
    decreases |changes|
  {
    if changes != [] {
      var n := |changes| - 1;
      var before, last := changes[..n], changes[n];
      assert changes == before + [last];
      assert multiset(changes) == multiset(before) + multiset{last};
      ReplayedHolds(begun, before, id);
      assert forall change :: change in changes <==> change in before || change == last;
      BackwardsByOneMore(before, last, id);
    }
  }

  lemma BackwardsByOneMore(before: seq<Change>, last: Change, id: SinkId)
    ensures ToldBackwards(before + [last], id)
      <==> ToldBackwards(before, id) || (last == Added(id) && Removed(id) in before)
  {
    var changes := before + [last];
    if ToldBackwards(before, id) {
      var i, j :| 0 <= i < j < |before| && before[i] == Removed(id) && before[j] == Added(id);
      assert changes[i] == Removed(id) && changes[j] == Added(id);
    } else if last == Added(id) && Removed(id) in before {
      var i :| 0 <= i < |before| && before[i] == Removed(id);
      assert changes[i] == Removed(id) && changes[|before|] == Added(id);
    }
  }

  /** Once nothing is left to announce, a subscriber that replayed what it was told holds the ids
      held exactly if it was told of no id's going before its coming. */
  lemma ReplayHolds(shared: Shared)
    requires Kept(shared) && WithinLimit(shared.known) && shared.pending == []
    ensures Replayed(shared.begun, shared.told) == shared.known.held.Keys
      <==> forall id: SinkId :: !ToldBackwards(shared.told, id)
  {
    var made, told := multiset(shared.made), multiset(shared.told);
    assert made == told;
    forall id: SinkId
      ensures id in Replayed(shared.begun, shared.told) <==>
        id in shared.known.held.Keys || ToldBackwards(shared.told, id)
    {
      assert Added(id) in told <==> Added(id) in shared.told;
      assert Removed(id) in told <==> Removed(id) in shared.told;
      if ToldBackwards(shared.told, id) {
        assert Added(id) in shared.told && Removed(id) in shared.told;
      }
      ReplayedHolds(shared.begun, shared.told, id);
    }
    if Replayed(shared.begun, shared.told) == shared.known.held.Keys {
      forall id: SinkId
        ensures !ToldBackwards(shared.told, id)
      {
        assert Removed(id) in shared.told <==> Removed(id) in made;
      }
    }
  }

  /** One thread at a time announces what it did before another does anything. */
  predicate OneAtATime(shared: Shared, events: seq<Event>)
    requires AllAllowed(shared, events)
    decreases |events|
  {
    events == [] || ((events[0].Does? ==> shared.pending == [])
                     && OneAtATime(After(shared, events[0]), events[1..]))
  }

  /** What was told and what is pending are the changes in the order they were made, and none of
      them is backwards. */
  ghost predicate InOrder(shared: Shared) {
    && |shared.pending| <= 1
    && shared.made == shared.told + (if shared.pending == [] then [] else shared.pending[0])
    && (WithinLimit(shared.known) ==> forall id: SinkId :: !ToldBackwards(shared.made, id))
  }

  lemma SayingStaysForward(begun: set<SinkId>, made: seq<Change>, changes: seq<Change>, before: Known, after: Known)
    requires Sound(before) && WithinLimit(after) && Says(changes, before, after)
    requires Orderly(begun, before.held.Keys, multiset(made), RECEIVER_IDS_FROM + before.next)
    requires forall id: SinkId :: !ToldBackwards(made, id)
    ensures forall id: SinkId :: !ToldBackwards(made + changes, id)
  {
    var more := made + changes;
    forall id: SinkId, i, j | 0 <= i < j < |more| && more[i] == Removed(id)
      ensures more[j] != Added(id)
    {
      if j < |made| {
        assert !ToldBackwards(made, id);
        assert made[i] == Removed(id) && made[j] == more[j];
      } else if more[j] == Added(id) {
        NoneComesBack(begun, made, changes, before, after, id, j - |made|);
      }
    }
  }

  lemma NoneComesBack(
    begun: set<SinkId>, made: seq<Change>, changes: seq<Change>, before: Known, after: Known, id: SinkId, at: nat)
    requires Sound(before) && WithinLimit(after) && Says(changes, before, after)
    requires Orderly(begun, before.held.Keys, multiset(made), RECEIVER_IDS_FROM + before.next)
    requires at < |changes| && changes[at] == Added(id)
    ensures |changes| == 1 && Removed(id) !in made
  {
    assert changes[at] in changes;
    assert |changes| == 1 && changes[0] == Added(id) && id == RECEIVER_IDS_FROM + before.next;
    assert Removed(id) !in multiset(made);
  }

  lemma DoingInOrder(shared: Shared, doing: Doing)
    requires Kept(shared) && InOrder(shared) && shared.pending == []
    ensures InOrder(After(shared, Does(doing)))
  {
    var after := After(shared, Does(doing));
    var done := Done(shared.known, doing);
    DoneSays(shared.known, doing);
    assert shared.told + [] == shared.told;
    assert after.pending == if done.1 == [] then [] else [done.1];
    if WithinLimit(after.known) {
      SayingStaysForward(shared.begun, shared.made, done.1, shared.known, after.known);
    }
  }

  lemma StepInOrder(shared: Shared, event: Event)
    requires Kept(shared) && InOrder(shared) && Allowed(shared, event) && (event.Does? ==> shared.pending == [])
    ensures InOrder(After(shared, event))
  {
    if event.Does? {
      DoingInOrder(shared, event.doing);
    } else {
      var after := After(shared, event);
      assert event.nth == 0 && after.pending == [];
      assert after.told + [] == after.told;
    }
  }

  /** Threads that take turns whole leave no subscriber holding anything else than what is held. */
  lemma {:induction false} OneAtATimeReplays(shared: Shared, events: seq<Event>)
    requires Kept(shared) && InOrder(shared) && AllAllowed(shared, events) && OneAtATime(shared, events)
    requires WithinLimit(AfterAll(shared, events).known) && AfterAll(shared, events).pending == []
    ensures Replayed(shared.begun, AfterAll(shared, events).told) == AfterAll(shared, events).known.held.Keys
    decreases |events|
  {
    if events == [] {
      assert shared.told + [] == shared.told;
      ReplayHolds(shared);
    } else {
      StepKeeps(shared, events[0]);
      StepInOrder(shared, events[0]);
      OneAtATimeReplays(After(shared, events[0]), events[1..]);
    }
  }

  /** From any beginning, threads that take turns whole leave every replay with what is held. */
  lemma InTurnFromBeginning(shared: Shared, events: seq<Event>)
    requires Beginning(shared) && Sound(shared.known) && AllAllowed(shared, events) && OneAtATime(shared, events)
    requires WithinLimit(AfterAll(shared, events).known) && AfterAll(shared, events).pending == []
    ensures Replayed(shared.begun, AfterAll(shared, events).told) == AfterAll(shared, events).known.held.Keys
  {
    BeginningKept(shared);
    OneAtATimeReplays(shared, events);
  }

  const NOTHING := Known(0, map[], map[], {})

  /** One thread admits a receiver, another lets everything go and says so first. */
  lemma ToldTooLateRuns(device: Device)
    ensures var start := Shared(NOTHING, {}, [], [], []);
      var events := [Does(Admitting(device, None, true)), Does(Resting), Announces(1), Announces(0)];
      && AllAllowed(start, events)
      && AfterAll(start, events).pending == [] && AfterAll(start, events).known.held == map[]
      && AfterAll(start, events).told == [Removed(RECEIVER_IDS_FROM), Added(RECEIVER_IDS_FROM)]
      && AfterAll(start, events).known.next == 1
  {
    var id := RECEIVER_IDS_FROM;
    var start := Shared(NOTHING, {}, [], [], []);
    var admitting := Does(Admitting(device, None, true));
    var admitted := Shared(Known(1, map[id := device], map[], {id}), {}, [Added(id)], [[Added(id)]], []);
    AdmittedFirst(device);
    var rested := Shared(Known(1, map[], map[], {}), {}, [Added(id), Removed(id)], [[Added(id)], [Removed(id)]], []);
    RestedNext(device);
    var told := rested.(pending := [[Added(id)]], told := [Removed(id)]);
    assert After(rested, Announces(1)) == told;
    var all := told.(pending := [], told := [Removed(id), Added(id)]);
    assert After(told, Announces(0)) == all;
    OneThen(told, Announces(0), []);
    OneThen(rested, Announces(1), [Announces(0)]);
    OneThen(admitted, Does(Resting), [Announces(1), Announces(0)]);
    OneThen(start, admitting, [Does(Resting), Announces(1), Announces(0)]);
  }

  lemma AdmittedFirst(device: Device)
    ensures Done(NOTHING, Admitting(device, None, true))
      == (Known(1, map[RECEIVER_IDS_FROM := device], map[], {RECEIVER_IDS_FROM}), [Added(RECEIVER_IDS_FROM)])
  {
    assert HeldAs(NOTHING.held, device.found.id) == {};
    assert map[][RECEIVER_IDS_FROM := device] == map[RECEIVER_IDS_FROM := device];
    assert {} + {RECEIVER_IDS_FROM} == {RECEIVER_IDS_FROM};
  }

  lemma RestedNext(device: Device)
    ensures Done(Known(1, map[RECEIVER_IDS_FROM := device], map[], {RECEIVER_IDS_FROM}), Resting)
      == (Known(1, map[], map[], {}), [Removed(RECEIVER_IDS_FROM)])
  {
    JustOne(RECEIVER_IDS_FROM);
    assert map[RECEIVER_IDS_FROM := device].Keys == {RECEIVER_IDS_FROM};
  }

  /** The subscriber then holds a receiver that is not held. */
  lemma ToldTooLate(device: Device) returns (start: Shared, events: seq<Event>)
    ensures Beginning(start) && Sound(start.known) && AllAllowed(start, events)
    ensures AfterAll(start, events).pending == [] && WithinLimit(AfterAll(start, events).known)
    ensures Replayed(start.begun, AfterAll(start, events).told) != AfterAll(start, events).known.held.Keys
  {
    var id := RECEIVER_IDS_FROM;
    start := Shared(NOTHING, {}, [], [], []);
    events := [Does(Admitting(device, None, true)), Does(Resting), Announces(1), Announces(0)];
    ToldTooLateRuns(device);
    var end := AfterAll(start, events);
    AlwaysKept(start, events);
    assert end.told[0] == Removed(id) && end.told[1] == Added(id);
    assert ToldBackwards(end.told, id);
    ReplayHolds(end);
  }

  lemma OneThen(shared: Shared, event: Event, events: seq<Event>)
    requires Allowed(shared, event) && AllAllowed(After(shared, event), events)
    ensures AllAllowed(shared, [event] + events)
    ensures AfterAll(shared, [event] + events) == AfterAll(After(shared, event), events)
  {
    assert ([event] + events)[1..] == events;
  }

  lemma JustOne(id: SinkId)
    ensures Going({id}) == [Removed(id)]
  {
    var ascending := Ascending({id});
    assert id in ascending;
    forall k | 0 <= k < |ascending|
      ensures ascending[k] == id
    {
      assert ascending[k] in ascending;
    }
    assert ascending[0] == id && ascending[|ascending| - 1] == id;
    assert Going({id})[0] == Removed(id);
  }
}

/** The world step: `State` (`update`, `player`) and the `collide` methods
    of `Coin` and `Lava`, which overwrite the fields of the state they are
    given.

    Actors are compared by identity in the game (`actor != this`). The
    model gives every actor object of a state a handle: a state keeps the
    sequence `objects` of actor values it can refer to, and its actor list
    is a sequence of handles into it. */
module World {
  import opened Wrappers
  import opened Actors
  import opened Levels
  import opened Collision
  import opened Behaviour

  /** `"playing"`, `"win"` and `"lost"`. */
  datatype Status = Playing | Won | Lost

  /** What a state holds, as a value: the level, the actors in list order
      and the status. */
  datatype Snapshot = Snapshot(level: Level, actors: seq<Actor>, status: Status)

  // ---------------------------------------------------------------------
  // Handles

  /** Every handle refers to one of the objects. */
  predicate Refs(objects: seq<Actor>, refs: seq<nat>) {
    forall i :: 0 <= i < |refs| ==> refs[i] < |objects|
  }

  /** The actors a list of handles refers to, in list order. */
  function Deref(objects: seq<Actor>, refs: seq<nat>): (r: seq<Actor>)
    requires Refs(objects, refs)
    ensures |r| == |refs|
    ensures forall i :: 0 <= i < |refs| ==> r[i] == objects[refs[i]]
    decreases |refs|
  {
    if |refs| == 0 then []
    else Deref(objects, refs[..|refs| - 1]) + [objects[refs[|refs| - 1]]]
  }

  /** The handles 0, 1, ..., n - 1: a list of all the objects, in order. */
  function Range(n: nat): (r: seq<nat>)
    ensures |r| == n
    ensures forall i :: 0 <= i < n ==> r[i] == i
    decreases n
  {
    if n == 0 then [] else Range(n - 1) + [n - 1]
  }

  /** `filter(actor => actor != self)` on a list of handles. */
  function Without(refs: seq<nat>, self: nat): (r: seq<nat>)
    ensures |r| <= |refs|
    ensures forall h :: h in r <==> h in refs && h != self
    decreases |refs|
  {
    if |refs| == 0 then []
    else
      var last := refs[|refs| - 1];
      Without(refs[..|refs| - 1], self) + (if last == self then [] else [last])
  }

  /** Filtering keeps every handle valid. */
  lemma WithoutRefs(objects: seq<Actor>, refs: seq<nat>, self: nat)
    requires Refs(objects, refs)
    ensures Refs(objects, Without(refs, self))
  {
    var r := Without(refs, self);
    forall i | 0 <= i < |r|
      ensures r[i] < |objects|
    {
      assert r[i] in refs;
    }
  }

  /** Some actor of the list is a coin (the negation of
      `actors.every(actor => actor.type != "coin")`). */
  predicate HasCoin(actors: seq<Actor>) {
    exists i :: 0 <= i < |actors| && actors[i].Coin?
  }

  /** `State.player`: the index of the first player, if there is one. */
  function FindPlayer(actors: seq<Actor>): (r: Option<nat>)
    ensures r.Some? ==> r.value < |actors| && actors[r.value].Player?
    ensures r.Some? ==> forall j :: 0 <= j < r.value ==> !actors[j].Player?
    ensures r.None? <==> !HasPlayer(actors)
    decreases |actors|
  {
    if |actors| == 0 then None
    else if actors[0].Player? then Some(0)
    else
      match FindPlayer(actors[1..])
      case None =>
        assert forall i :: 1 <= i < |actors| ==> actors[i] == actors[1..][i - 1];
        None
      case Some(i) => Some(i + 1)
  }

  // ---------------------------------------------------------------------
  // The collision pass, on values

  /** The new state's actor list and status while the collision loop runs. */
  datatype Outcome = Outcome(refs: seq<nat>, status: Status)

  /** `Coin.collide` for the coin with handle `self`: the coin filters
      itself out of the list, and the status becomes `"win"` when no coin is
      left in it. */
  function CoinCollided(objects: seq<Actor>, o: Outcome, self: nat): (r: Outcome)
    requires Refs(objects, o.refs)
    ensures Refs(objects, r.refs)
  {
    var refs := Without(o.refs, self);
    WithoutRefs(objects, o.refs, self);
    Outcome(refs, if HasCoin(Deref(objects, refs)) then o.status else Won)
  }

  /** `actor.collide(state)` for the coin or lava object with handle `self`;
      `Lava.collide` sets the status to `"lost"` and leaves the list alone. */
  function Collided(objects: seq<Actor>, o: Outcome, self: nat): (r: Outcome)
    requires Refs(objects, o.refs) && self < |objects| && !objects[self].Player?
    ensures Refs(objects, r.refs)
  {
    if objects[self].Coin? then CoinCollided(objects, o, self) else Outcome(o.refs, Lost)
  }

  /** The new state after the collision loop has visited the first n
      actors of the updated list `frame`, starting from all of them and
      `"playing"`: each non-player actor that overlaps the player collides. */
  function Collisions(frame: seq<Actor>, player: Actor, n: nat): (o: Outcome)
    requires n <= |frame|
    ensures Refs(frame, o.refs)
    decreases n
  {
    if n == 0 then Outcome(Range(|frame|), Playing)
    else
      var o := Collisions(frame, player, n - 1);
      var a := frame[n - 1];
      if !a.Player? && Overlap(a, player) then Collided(frame, o, n - 1) else o
  }

  /** Every actor updated against the level: `this.actors.map(...)`. */
  ghost function Frame(level: Level, actors: seq<Actor>, time: real, keys: Keys, sin: real -> real): (r: seq<Actor>)
    ensures |r| == |actors|
    ensures forall i :: 0 <= i < |actors| ==> r[i] == ActorNext(level, actors[i], time, keys, sin)
    ensures HasPlayer(r) == HasPlayer(actors)
  {
    var r := seq(|actors|, i requires 0 <= i < |actors| => ActorNext(level, actors[i], time, keys, sin));
    assert forall i :: 0 <= i < |actors| ==> (r[i].Player? <==> actors[i].Player?);
    r
  }

  /** The state `State.update` returns. A playing state must hold a player:
      the game reads `player.pos` and would throw otherwise. */
  ghost function Next(w: Snapshot, time: real, keys: Keys, sin: real -> real): Snapshot
    requires w.status == Playing ==> HasPlayer(w.actors)
  {
    var frame := Frame(w.level, w.actors, time, keys, sin);
    if w.status != Playing then Snapshot(w.level, frame, w.status)
    else
      var player := frame[FindPlayer(frame).value];
      if Touching(w.level, player.pos, player.Size(), Cell.Lava) then Snapshot(w.level, frame, Lost)
      else
        var o := Collisions(frame, player, |frame|);
        Snapshot(w.level, Deref(frame, o.refs), o.status)
  }

  // ---------------------------------------------------------------------
  // The state object

  class State {
    const level: Level
    /** The actor objects the list refers to. */
    const objects: seq<Actor>
    /** `this.actors`, as handles into `objects`. */
    var actors: seq<nat>
    var status: Status

    ghost predicate Valid()
      reads this
    {
      Refs(objects, actors)
    }

    /** The state as a value. */
    function View(): Snapshot
      reads this
      requires Valid()
    {
      Snapshot(level, Deref(objects, actors), status)
    }

    /** `new State(level, actors, status)`: the list holds the given actor
        objects, in order. */
    constructor(level: Level, actors: seq<Actor>, status: Status)
      ensures this.level == level && objects == actors && this.actors == Range(|actors|)
      ensures this.status == status
      ensures Valid() && View() == Snapshot(level, actors, status)
    {
      this.level := level;
      this.objects := actors;
      this.actors := Range(|actors|);
      this.status := status;
      new;
      assert Deref(objects, this.actors) == actors;
    }

    /** `State.player`: the first player of the list; no actor before it
        is a player. */
    function Player(): (r: Option<Actor>)
      reads this
      requires Valid()
      ensures r.Some? <==> HasPlayer(View().actors)
      ensures r.Some? ==> r.value.Player? && r.value in View().actors
      ensures r.Some? ==>
        exists i :: 0 <= i < |View().actors| && View().actors[i] == r.value && (forall j :: 0 <= j < i ==> !View().actors[j].Player?)
    {
      var list := Deref(objects, actors);
      match FindPlayer(list)
      case None => None
      case Some(i) => Some(list[i])
    }

    /** `State.update`: every actor is updated against this level; a state
        that is no longer playing keeps its status; otherwise a player
        touching lava loses before any collision is applied, and else every
        non-player actor overlapping the player collides, in list order. */
    method Update(time: real, keys: Keys, sin: real -> real) returns (newState: State)
      requires Valid()
      requires status == Playing ==> HasPlayer(View().actors)
      ensures fresh(newState) && newState.Valid()
      ensures newState.View() == Next(View(), time, keys, sin)
    {
      var updated := UpdateAll(level, Deref(objects, actors), time, keys, sin);
      newState := new State(level, updated, status);
      if newState.status != Playing {
        return;
      }
      var player := newState.Player().value;
      assert player == updated[FindPlayer(updated).value];
      var lava := Touches(level, player, Cell.Lava);
      if lava {
        newState.status := Lost;
        return;
      }
      CollideAll(newState, player);
    }
  }

  /** `this.actors.map(actor => actor.update(time, this, keys))`. */
  method UpdateAll(level: Level, actors: seq<Actor>, time: real, keys: Keys, sin: real -> real)
    returns (updated: seq<Actor>)
    ensures updated == Frame(level, actors, time, keys, sin)
  {
    updated := [];
    for i := 0 to |actors|
      invariant |updated| == i
      invariant forall j :: 0 <= j < i ==> updated[j] == ActorNext(level, actors[j], time, keys, sin)
    {
      var a := UpdateActor(level, actors[i], time, keys, sin);
      updated := updated + [a];
    }
  }

  /** The collision loop of `State.update`: it walks the updated actor
      array (not the state's list, which `Coin.collide` replaces), and every
      non-player actor that overlaps the player collides with the state. */
  method CollideAll(state: State, player: Actor)
    requires state.Valid() && state.actors == Range(|state.objects|) && state.status == Playing
    modifies state
    ensures state.Valid()
    ensures Outcome(state.actors, state.status) == Collisions(state.objects, player, |state.objects|)
  {
    for i := 0 to |state.objects|
      invariant state.Valid()
      invariant Outcome(state.actors, state.status) == Collisions(state.objects, player, i)
    {
      CollideAt(state, player, i);
    }
  }

  /** One turn of the collision loop: the actor at index i of the updated
      array collides when it is not the player and overlaps it. */
  method CollideAt(state: State, player: Actor, i: nat)
    requires state.Valid() && i < |state.objects|
    requires Outcome(state.actors, state.status) == Collisions(state.objects, player, i)
    modifies state
    ensures state.Valid()
    ensures Outcome(state.actors, state.status) == Collisions(state.objects, player, i + 1)
  {
    ghost var before := Outcome(state.actors, state.status);
    var actor := state.objects[i];
    if !actor.Player? && Overlap(actor, player) {
      Collide(state, i);
      assert Outcome(state.actors, state.status) == Collided(state.objects, before, i);
    }
  }

  /** `Coin.collide(state)` for the coin object with handle `self`. */
  method CoinCollide(state: State, self: nat)
    requires state.Valid()
    modifies state
    ensures state.Valid()
    ensures Outcome(state.actors, state.status) ==
      CoinCollided(state.objects, Outcome(old(state.actors), old(state.status)), self)
  {
    WithoutRefs(state.objects, state.actors, self);
    state.actors := Without(state.actors, self);
    if !HasCoin(Deref(state.objects, state.actors)) {
      state.status := Won;
    }
  }

  /** `Lava.collide(state)`. */
  method LavaCollide(state: State)
    modifies state
    ensures state.actors == old(state.actors) && state.status == Lost
  {
    state.status := Lost;
  }

  /** `actor.collide(state)`, dispatched on the class of the object with
      handle `self`. */
  method Collide(state: State, self: nat)
    requires state.Valid() && self < |state.objects| && !state.objects[self].Player?
    modifies state
    ensures state.Valid()
    ensures Outcome(state.actors, state.status) ==
      Collided(state.objects, Outcome(old(state.actors), old(state.status)), self)
  {
    if state.objects[self].Coin? {
      CoinCollide(state, self);
    } else {
      LavaCollide(state);
    }
  }
}

/** Properties of the world step. */
module WorldFacts {
  import opened Wrappers
  import opened Vectors
  import opened Actors
  import opened Levels
  import opened Collision
  import opened Behaviour
  import opened World

  /** The actor at index j of the updated list is a coin that overlaps the player. */
  predicate CoinHit(frame: seq<Actor>, player: Actor, j: nat)
    requires j < |frame|
  {
    frame[j].Coin? && Overlap(frame[j], player)
  }

  /** The actor at index j of the updated list is a lava that overlaps the player. */
  predicate LavaHit(frame: seq<Actor>, player: Actor, j: nat)
    requires j < |frame|
  {
    frame[j].Lava? && Overlap(frame[j], player)
  }

  /** The coin at index j is still in the list after the first n actors were visited. */
  predicate CoinRemains(frame: seq<Actor>, player: Actor, n: nat, j: nat)
    requires j < |frame|
  {
    frame[j].Coin? && !(j < n && Overlap(frame[j], player))
  }

  /** Some coin is still in the list after the first n actors were visited. */
  predicate CoinsLeft(frame: seq<Actor>, player: Actor, n: nat) {
    exists j :: 0 <= j < |frame| && CoinRemains(frame, player, n, j)
  }

  /** Some lava at an index in [lo, hi) overlaps the player. */
  predicate LavaHitIn(frame: seq<Actor>, player: Actor, lo: nat, hi: nat)
    requires hi <= |frame|
  {
    exists k :: lo <= k < hi && LavaHit(frame, player, k)
  }

  /** Among the first n actors an overlapping coin took the last coin, and
      no overlapping lava comes after it. */
  predicate LastCoinTaken(frame: seq<Actor>, player: Actor, n: nat)
    requires n <= |frame|
  {
    && !CoinsLeft(frame, player, n)
    && exists j :: 0 <= j < n && CoinHit(frame, player, j) && !LavaHitIn(frame, player, j + 1, n)
  }

  /** Which actors of the updated list are overlapping coins. */
  function CoinHits(frame: seq<Actor>, player: Actor): (hits: seq<bool>)
    ensures |hits| == |frame|
    ensures forall j :: 0 <= j < |frame| ==> hits[j] == CoinHit(frame, player, j)
  {
    seq(|frame|, j requires 0 <= j < |frame| => CoinHit(frame, player, j))
  }

  /** The handles below m still in the list after the first n actors were
      visited, where `hits` marks the overlapping coins: all but the marked
      ones among the first n. */
  function Spared(hits: seq<bool>, n: nat, m: nat): (r: seq<nat>)
    requires m <= |hits|
    ensures forall i :: 0 <= i < |r| ==> r[i] < m
    decreases m
  {
    if m == 0 then []
    else Spared(hits, n, m - 1) + (if m - 1 < n && hits[m - 1] then [] else [m - 1])
  }

  /** A handle below m is spared exactly when it is not marked among the
      first n. */
  lemma {:induction false} SparedMembers(hits: seq<bool>, n: nat, m: nat, h: nat)
    requires m <= |hits|
    ensures h in Spared(hits, n, m) <==> h < m && !(h < n && hits[h])
    decreases m
  {
    if m > 0 {
      SparedMembers(hits, n, m - 1, h);
    }
  }

  /** Filtering a list with one more handle at its end. */
  lemma WithoutSnoc(refs: seq<nat>, last: nat, self: nat)
    ensures Without(refs + [last], self) == Without(refs, self) + (if last == self then [] else [last])
  {
    assert (refs + [last])[..|refs|] == refs;
  }

  /** Before any actor is visited nothing is removed. */
  lemma {:induction false} SparedNone(hits: seq<bool>, m: nat)
    requires m <= |hits|
    ensures Spared(hits, 0, m) == Range(m)
    decreases m
  {
    if m > 0 {
      SparedNone(hits, m - 1);
    }
  }

  /** Visiting an unmarked actor removes nothing. */
  lemma {:induction false} SparedSkip(hits: seq<bool>, n: nat, m: nat)
    requires 0 < n <= |hits| && m <= |hits| && !hits[n - 1]
    ensures Spared(hits, n, m) == Spared(hits, n - 1, m)
    decreases m
  {
    if m > 0 {
      SparedSkip(hits, n, m - 1);
    }
  }

  /** Visiting a marked actor filters its handle out. */
  lemma {:induction false} SparedHit(hits: seq<bool>, n: nat, m: nat)
    requires 0 < n <= |hits| && m <= |hits| && hits[n - 1]
    ensures Spared(hits, n, m) == Without(Spared(hits, n - 1, m), n - 1)
    decreases m
  {
    if m > 0 {
      SparedHit(hits, n, m - 1);
      var before := Spared(hits, n - 1, m - 1);
      if m - 1 < n - 1 && hits[m - 1] {
        assert Spared(hits, n - 1, m) == before;
      } else {
        WithoutSnoc(before, m - 1, n - 1);
      }
    }
  }

  /** The collision pass removes exactly the overlapping coins it has
      visited, where `hits` marks those coins. */
  lemma {:induction false} CollisionsRefs(frame: seq<Actor>, player: Actor, hits: seq<bool>, n: nat)
    requires n <= |frame| == |hits|
    requires forall j :: 0 <= j < |frame| ==> hits[j] == CoinHit(frame, player, j)
    ensures Collisions(frame, player, n).refs == Spared(hits, n, |frame|)
    decreases n
  {
    if n == 0 {
      SparedNone(hits, |frame|);
    } else {
      CollisionsRefs(frame, player, hits, n - 1);
      CollisionsRefsStep(frame, player, n);
      if hits[n - 1] {
        SparedHit(hits, n, |frame|);
      } else {
        SparedSkip(hits, n, |frame|);
      }
    }
  }

  /** One visit of the collision pass changes the list only by filtering
      out an overlapping coin. */
  lemma CollisionsRefsStep(frame: seq<Actor>, player: Actor, n: nat)
    requires 0 < n <= |frame|
    ensures var refs := Collisions(frame, player, n - 1).refs;
      Collisions(frame, player, n).refs == if CoinHit(frame, player, n - 1) then Without(refs, n - 1) else refs
  {
    var o := Collisions(frame, player, n - 1);
    var a := frame[n - 1];
    if !a.Player? && Overlap(a, player) {
      assert Collisions(frame, player, n) == Collided(frame, o, n - 1);
    }
  }

  /** The list after the first n visits holds a coin exactly when some coin
      of the updated list was not removed. */
  lemma RemainingCoins(frame: seq<Actor>, player: Actor, n: nat)
    requires n <= |frame|
    ensures HasCoin(Deref(frame, Collisions(frame, player, n).refs)) == CoinsLeft(frame, player, n)
  {
    CollisionsRefs(frame, player, CoinHits(frame, player), n);
    var refs := Collisions(frame, player, n).refs;
    var list := Deref(frame, refs);
    if HasCoin(list) {
      var i :| 0 <= i < |list| && list[i].Coin?;
      SparedMembers(CoinHits(frame, player), n, |frame|, refs[i]);
      assert CoinRemains(frame, player, n, refs[i]);
    }
    if CoinsLeft(frame, player, n) {
      var j :| 0 <= j < |frame| && CoinRemains(frame, player, n, j);
      SparedMembers(CoinHits(frame, player), n, |frame|, j);
      var i :| 0 <= i < |refs| && refs[i] == j;
      assert list[i].Coin?;
    }
  }

  /** Visiting one more actor can only remove coins; visiting one that is
      not an overlapping coin removes none. */
  lemma CoinsLeftStep(frame: seq<Actor>, player: Actor, n: nat)
    requires n < |frame|
    ensures CoinsLeft(frame, player, n + 1) ==> CoinsLeft(frame, player, n)
    ensures !CoinHit(frame, player, n) ==> CoinsLeft(frame, player, n + 1) == CoinsLeft(frame, player, n)
  {
    if CoinsLeft(frame, player, n + 1) {
      var j :| 0 <= j < |frame| && CoinRemains(frame, player, n + 1, j);
      assert CoinRemains(frame, player, n, j);
    }
    if !CoinHit(frame, player, n) && CoinsLeft(frame, player, n) {
      var j :| 0 <= j < |frame| && CoinRemains(frame, player, n, j);
      assert CoinRemains(frame, player, n + 1, j);
    }
  }

  /** A range of lava hits extended by one index. */
  lemma LavaHitInStep(frame: seq<Actor>, player: Actor, lo: nat, n: nat)
    requires n < |frame|
    ensures LavaHitIn(frame, player, lo, n + 1) == (LavaHitIn(frame, player, lo, n) || (lo <= n && LavaHit(frame, player, n)))
  {
  }

  /** Visiting an actor that overlaps nothing, or a player, does not change
      whether the last coin was taken. */
  lemma LastCoinTakenSkip(frame: seq<Actor>, player: Actor, n: nat)
    requires n < |frame| && !CoinHit(frame, player, n) && !LavaHit(frame, player, n)
    ensures LastCoinTaken(frame, player, n + 1) == LastCoinTaken(frame, player, n)
  {
    CoinsLeftStep(frame, player, n);
    forall lo | 1 <= lo <= n
      ensures LavaHitIn(frame, player, lo, n + 1) == LavaHitIn(frame, player, lo, n)
    {
      LavaHitInStep(frame, player, lo, n);
    }
  }

  /** An overlapping lava cancels any earlier taking of the last coin. */
  lemma LastCoinTakenLava(frame: seq<Actor>, player: Actor, n: nat)
    requires n < |frame| && LavaHit(frame, player, n)
    ensures !LastCoinTaken(frame, player, n + 1)
  {
    forall j | 0 <= j < n + 1 && CoinHit(frame, player, j)
      ensures LavaHitIn(frame, player, j + 1, n + 1)
    {
    }
  }

  /** An overlapping coin takes the last coin exactly when no coin is left
      after it. */
  lemma LastCoinTakenCoin(frame: seq<Actor>, player: Actor, n: nat)
    requires n < |frame| && CoinHit(frame, player, n)
    ensures LastCoinTaken(frame, player, n + 1) == !CoinsLeft(frame, player, n + 1)
  {
    if !CoinsLeft(frame, player, n + 1) {
      assert !LavaHitIn(frame, player, n + 1, n + 1);
    }
  }

  /** The status after the first n visits: `"win"` exactly when an
      overlapping coin took the last coin and no overlapping lava follows
      it, `"lost"` exactly when otherwise some overlapping lava was
      visited, `"playing"` else. So a lava collision followed by the
      removal of the last coin ends in `"win"`. */
  lemma {:induction false} CollisionsStatus(frame: seq<Actor>, player: Actor, n: nat)
    requires n <= |frame|
    ensures var o := Collisions(frame, player, n);
      && (o.status == Won <==> LastCoinTaken(frame, player, n))
      && (o.status == Lost <==> !LastCoinTaken(frame, player, n) && LavaHitIn(frame, player, 0, n))
    decreases n
  {
    if n > 0 {
      var k := n - 1;
      CollisionsStatus(frame, player, k);
      LavaHitInStep(frame, player, 0, k);
      var o := Collisions(frame, player, k);
      var a := frame[k];
      if a.Player? || !Overlap(a, player) {
        LastCoinTakenSkip(frame, player, k);
      } else if a.Lava? {
        LastCoinTakenLava(frame, player, k);
      } else {
        RemainingCoins(frame, player, n);
        LastCoinTakenCoin(frame, player, k);
        CoinsLeftStep(frame, player, k);
        assert Collisions(frame, player, n) == CoinCollided(frame, o, k);
      }
    }
  }

  // ---------------------------------------------------------------------
  // The list the collision pass leaves

  /** The updated list without the coins that overlap the player, in
      order: the reference for what the collision pass keeps. */
  function Survivors(frame: seq<Actor>, player: Actor): (r: seq<Actor>)
    ensures |r| <= |frame|
    decreases |frame|
  {
    if |frame| == 0 then []
    else
      var last := frame[|frame| - 1];
      Survivors(frame[..|frame| - 1], player) + (if last.Coin? && Overlap(last, player) then [] else [last])
  }

  /** Following the spared handles gives the survivors. */
  lemma {:induction false} SparedSurvivors(frame: seq<Actor>, player: Actor, m: nat)
    requires m <= |frame|
    ensures Deref(frame, Spared(CoinHits(frame, player), |frame|, m)) == Survivors(frame[..m], player)
    decreases m
  {
    if m > 0 {
      SparedSurvivors(frame, player, m - 1);
      var hits := CoinHits(frame, player);
      var before := Spared(hits, |frame|, m - 1);
      assert frame[..m][..m - 1] == frame[..m - 1];
      if !hits[m - 1] {
        assert (before + [m - 1])[..|before|] == before;
      }
    }
  }

  /** The survivors keep every actor that is not a coin, so in particular
      every player. */
  lemma {:induction false} SurvivorsKeepPlayers(frame: seq<Actor>, player: Actor)
    ensures HasPlayer(Survivors(frame, player)) == HasPlayer(frame)
    decreases |frame|
  {
    if |frame| > 0 {
      var init := frame[..|frame| - 1];
      SurvivorsKeepPlayers(init, player);
      var last := frame[|frame| - 1];
      var rest := Survivors(init, player);
      var tail := if last.Coin? && Overlap(last, player) then [] else [last];
      assert Survivors(frame, player) == rest + tail;
      if HasPlayer(frame) {
        var i :| 0 <= i < |frame| && frame[i].Player?;
        if i < |frame| - 1 {
          assert init[i].Player?;
          var j :| 0 <= j < |rest| && rest[j].Player?;
          assert (rest + tail)[j] == rest[j];
        } else {
          assert (rest + tail)[|rest|] == last;
        }
      }
      if HasPlayer(rest + tail) {
        var j :| 0 <= j < |rest + tail| && (rest + tail)[j].Player?;
        if j < |rest| {
          assert rest[j].Player?;
          var i :| 0 <= i < |init| && init[i].Player?;
          assert frame[i] == init[i];
        } else {
          assert frame[|frame| - 1].Player?;
        }
      }
    }
  }

  // ---------------------------------------------------------------------
  // One world step

  /** The player the lava check and the collisions use: the first player
      of the updated list. */
  ghost function UpdatedPlayer(w: Snapshot, time: real, keys: Keys, sin: real -> real): (p: Actor)
    requires HasPlayer(w.actors)
    ensures p.Player?
  {
    var frame := Frame(w.level, w.actors, time, keys, sin);
    frame[FindPlayer(frame).value]
  }

  /** A state that is no longer playing keeps its status and level, and
      its actors are the old ones updated, one for one. */
  lemma NextWhenOver(w: Snapshot, time: real, keys: Keys, sin: real -> real)
    requires w.status != Playing
    ensures var r := Next(w, time, keys, sin);
      && r.level == w.level && r.status == w.status && |r.actors| == |w.actors|
      && forall i :: 0 <= i < |w.actors| ==> r.actors[i] == ActorNext(w.level, w.actors[i], time, keys, sin)
  {
  }

  /** A playing state whose updated player touches a lava cell is lost,
      with the updated actors and no collision applied. */
  lemma NextOnLava(w: Snapshot, time: real, keys: Keys, sin: real -> real)
    requires w.status == Playing && HasPlayer(w.actors)
    requires var p := UpdatedPlayer(w, time, keys, sin); Touching(w.level, p.pos, p.Size(), Cell.Lava)
    ensures Next(w, time, keys, sin) == Snapshot(w.level, Frame(w.level, w.actors, time, keys, sin), Lost)
  {
  }

  /** A playing state whose updated player touches no lava cell keeps the
      updated actors except the coins overlapping the player, in order,
      and its status follows the collisions in list order. */
  lemma NextCollides(w: Snapshot, time: real, keys: Keys, sin: real -> real)
    requires w.status == Playing && HasPlayer(w.actors)
    requires var p := UpdatedPlayer(w, time, keys, sin); !Touching(w.level, p.pos, p.Size(), Cell.Lava)
    ensures var r, frame, p := Next(w, time, keys, sin), Frame(w.level, w.actors, time, keys, sin), UpdatedPlayer(w, time, keys, sin);
      && r.level == w.level
      && r.actors == Survivors(frame, p)
      && (r.status == Won <==> LastCoinTaken(frame, p, |frame|))
      && (r.status == Lost <==> !LastCoinTaken(frame, p, |frame|) && LavaHitIn(frame, p, 0, |frame|))
  {
    var frame, p := Frame(w.level, w.actors, time, keys, sin), UpdatedPlayer(w, time, keys, sin);
    CollisionsRefs(frame, p, CoinHits(frame, p), |frame|);
    SparedSurvivors(frame, p, |frame|);
    assert frame[..|frame|] == frame;
    CollisionsStatus(frame, p, |frame|);
  }

  /** A step never adds actors. */
  lemma NextNeverGrows(w: Snapshot, time: real, keys: Keys, sin: real -> real)
    requires w.status == Playing ==> HasPlayer(w.actors)
    ensures |Next(w, time, keys, sin).actors| <= |w.actors|
  {
    if w.status == Playing {
      var p := UpdatedPlayer(w, time, keys, sin);
      if !Touching(w.level, p.pos, p.Size(), Cell.Lava) {
        NextCollides(w, time, keys, sin);
      }
    }
  }

  /** A step never removes the player, so the next step can find one. */
  lemma NextKeepsPlayer(w: Snapshot, time: real, keys: Keys, sin: real -> real)
    requires HasPlayer(w.actors)
    ensures HasPlayer(Next(w, time, keys, sin).actors)
  {
    if w.status == Playing {
      var frame, p := Frame(w.level, w.actors, time, keys, sin), UpdatedPlayer(w, time, keys, sin);
      if !Touching(w.level, p.pos, p.Size(), Cell.Lava) {
        NextCollides(w, time, keys, sin);
        SurvivorsKeepPlayers(frame, p);
      }
    }
  }

  /** A step that wins leaves no coin in the list. */
  lemma WonLeavesNoCoins(w: Snapshot, time: real, keys: Keys, sin: real -> real)
    requires w.status == Playing && HasPlayer(w.actors)
    requires Next(w, time, keys, sin).status == Won
    ensures !HasCoin(Next(w, time, keys, sin).actors)
  {
    var frame, p := Frame(w.level, w.actors, time, keys, sin), UpdatedPlayer(w, time, keys, sin);
    CollisionsStatus(frame, p, |frame|);
    RemainingCoins(frame, p, |frame|);
  }

  /** A step that loses had the updated player on a lava cell or
      overlapping a lava actor. */
  lemma LostNeedsLava(w: Snapshot, time: real, keys: Keys, sin: real -> real)
    requires w.status == Playing && HasPlayer(w.actors)
    requires Next(w, time, keys, sin).status == Lost
    ensures var frame, p := Frame(w.level, w.actors, time, keys, sin), UpdatedPlayer(w, time, keys, sin);
      Touching(w.level, p.pos, p.Size(), Cell.Lava) || exists k :: 0 <= k < |frame| && LavaHit(frame, p, k)
  {
    var frame, p := Frame(w.level, w.actors, time, keys, sin), UpdatedPlayer(w, time, keys, sin);
    CollisionsStatus(frame, p, |frame|);
  }

  /** The order of the list decides the outcome when one lava and the only
      coin both overlap the player: lava then coin ends in `"win"`, coin
      then lava in `"lost"`. */
  lemma CollisionOrderMatters()
    ensures var player, lava, coin := Player(Vec(0.0, 0.0), Vec(0.0, 0.0)), Actor.Lava(Vec(0.0, 0.0), Vec(2.0, 0.0), None), Coin(Vec(0.0, 0.0), Vec(0.0, 0.0), 0.0);
      && Collisions([player, lava, coin], player, 3).status == Won
      && Collisions([player, coin, lava], player, 3).status == Lost
  {
    var player, lava, coin := Player(Vec(0.0, 0.0), Vec(0.0, 0.0)), Actor.Lava(Vec(0.0, 0.0), Vec(2.0, 0.0), None), Coin(Vec(0.0, 0.0), Vec(0.0, 0.0), 0.0);
    var a, b := [player, lava, coin], [player, coin, lava];
    assert Overlap(lava, player) && Overlap(coin, player);
    assert Range(3) == [0, 1, 2] by {
      assert Range(1) == [0];
      assert Range(2) == [0, 1];
    }
    assert Without([0, 1, 2], 2) == [0, 1] by {
      assert [0, 1, 2][..2] == [0, 1] && [0, 1][..1] == [0] && [0][..0] == [];
    }
    assert Without([0, 1, 2], 1) == [0, 2] by {
      assert [0, 1, 2][..2] == [0, 1] && [0, 1][..1] == [0] && [0][..0] == [];
    }
    assert !HasCoin([player, lava]);
    // Lava first: lost at the second visit, then the coin takes the last coin.
    assert Collisions(a, player, 2) == Outcome([0, 1, 2], Lost);
    assert Deref(a, [0, 1]) == [player, lava];
    assert Collisions(a, player, 3) == Outcome([0, 1], Won);
    // Coin first: won at the second visit, then lava.
    assert Deref(b, [0, 2]) == [player, lava];
    assert Collisions(b, player, 2) == Outcome([0, 2], Won);
    assert Collisions(b, player, 3) == Outcome([0, 2], Lost);
  }

  // ---------------------------------------------------------------------
  // Many world steps

  /** The state after one `update` per (time, keys) step. */
  ghost function Run(w: Snapshot, steps: seq<(real, Keys)>, sin: real -> real): (r: Snapshot)
    requires HasPlayer(w.actors)
    ensures HasPlayer(r.actors)
    decreases |steps|
  {
    if |steps| == 0 then w
    else
      NextKeepsPlayer(w, steps[0].0, steps[0].1, sin);
      Run(Next(w, steps[0].0, steps[0].1, sin), steps[1..], sin)
  }

  /** Once a state has won or lost it keeps that status through any number
      of further steps, with the same number of actors. */
  lemma {:induction false} RunEndIsFinal(w: Snapshot, steps: seq<(real, Keys)>, sin: real -> real)
    requires HasPlayer(w.actors) && w.status != Playing
    ensures Run(w, steps, sin).status == w.status && |Run(w, steps, sin).actors| == |w.actors|
    decreases |steps|
  {
    if |steps| > 0 {
      NextWhenOver(w, steps[0].0, steps[0].1, sin);
      RunEndIsFinal(Next(w, steps[0].0, steps[0].1, sin), steps[1..], sin);
    }
  }

  /** No sequence of steps adds actors. */
  lemma {:induction false} RunNeverGrows(w: Snapshot, steps: seq<(real, Keys)>, sin: real -> real)
    requires HasPlayer(w.actors)
    ensures |Run(w, steps, sin).actors| <= |w.actors|
    decreases |steps|
  {
    if |steps| > 0 {
      NextNeverGrows(w, steps[0].0, steps[0].1, sin);
      NextKeepsPlayer(w, steps[0].0, steps[0].1, sin);
      RunNeverGrows(Next(w, steps[0].0, steps[0].1, sin), steps[1..], sin);
    }
  }
}

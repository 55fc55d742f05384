/**
 * The `Toroid` of wator/wator.py as an object: its grid is a two-dimensional
 * array updated in place, and its table of fish, its set of live creatures and
 * the next fresh identity are fields that its methods reassign.  The methods of
 * the source's `Fish`, `Prey` and `Predator` classes act on a fish by identity
 * and live here, beside the toroid's own.  Every method is proved to leave
 * exactly the state the corresponding function of module `World` describes.
 */
module Wator {
  import opened Wrappers
  import opened Topology
  import opened World

  class Toroid {
    const width: nat
    const height: nat
    /** `grid[y, x]` is `Toroid.map[y][x]`. */
    const grid: array2<Option<Id>>
    var fish: map<Id, Fish>
    var creatures: set<Id>
    var nextId: nat

    ghost predicate Shape() {
      grid.Length0 == height && grid.Length1 == width
    }

    /** The grid as rows of cells. */
    ghost function Cells(): (r: seq<seq<Option<Id>>>)
      reads grid
      requires Shape()
      ensures |r| == height && forall y :: 0 <= y < height ==> |r[y]| == width
      ensures forall y, x :: 0 <= y < height && 0 <= x < width ==> r[y][x] == grid[y, x]
    {
      seq(height, y requires 0 <= y < height reads grid =>
        seq(width, x requires 0 <= x < width reads grid => grid[y, x]))
    }

    /** The toroid as a `World.State`. */
    ghost function Model(): State
      reads this, grid
      requires Shape()
    {
      State(width, height, Cells(), fish, creatures, nextId)
    }

    ghost predicate Valid()
      reads this, grid
    {
      Shape() && World.Valid(Model())
    }

    /** `Toroid(width, height)`: an empty grid and no creatures. */
    constructor (width: nat, height: nat)
      ensures Valid() && Model() == Empty(width, height) && fresh(grid)
    {
      this.width := width;
      this.height := height;
      grid := new Option<Id>[height, width]((y, x) => None);
      fish := map[];
      creatures := {};
      nextId := 0;
      new;
      assert Cells() == Empty(width, height).cells by {
        var e := Empty(width, height).cells;
        forall y | 0 <= y < height ensures Cells()[y] == e[y] { }
      }
    }

    /** `Toroid.__getitem__` */
    method Get(p: Position) returns (r: Option<Id>)
      requires Valid() && InBounds(width, height, p)
      ensures r == Cell(Model(), p)
      ensures r.Some? ==> r.value in fish
    {
      r := grid[p.y, p.x];
    }

    /** `Toroid.__setitem__`: only the cell at `p` changes. */
    method Put(p: Position, v: Option<Id>)
      requires Valid() && InBounds(width, height, p) && (v.Some? ==> v.value in fish)
      modifies grid
      ensures Valid() && Model() == SetCell(old(Model()), p, v)
    {
      grid[p.y, p.x] := v;
      assert Cells() == old(Cells())[p.y := old(Cells())[p.y][p.x := v]] by {
        var c, o := Cells(), old(Cells());
        forall y | 0 <= y < height ensures c[y] == o[p.y := o[p.y][p.x := v]][y] { }
      }
      assert Model() == SetCell(old(Model()), p, v);
      assert World.Valid(Model());
    }

    /** `Toroid.open` */
    method Open(p: Position) returns (b: bool)
      requires Valid() && InBounds(width, height, p)
      ensures b <==> Cell(Model(), p).None?
    {
      var v := Get(p);
      b := v.None?;
    }

    /** `Toroid.contains`: the cell holds a fish of the species. */
    method Contains(p: Position, species: Species) returns (b: bool)
      requires Valid() && InBounds(width, height, p)
      ensures b <==> Cell(Model(), p).Some? && fish[Cell(Model(), p).value].species == species
    {
      var v := Get(p);
      b := v.Some? && fish[v.value].species == species;
    }

    /**
     * `Toroid.update`: stores the fish at its new position and clears its last
     * one when the new position is open; otherwise raises (`ok` is false) and
     * changes nothing.
     */
    method Update(id: Id) returns (ok: bool)
      requires Valid() && id in fish && fish[id].lastPosition.Some?
      modifies grid
      ensures Valid()
      ensures var r := World.Update(old(Model()), id); Model() == r.state && ok == r.Ok?
    {
      var f := fish[id];
      ok := Open(f.position);
      if ok {
        Put(f.position, Some(id));
        Put(f.lastPosition.value, None);
      }
    }

    /** `Toroid.remove` */
    method Remove(id: Id)
      requires Valid()
      modifies this
      ensures Valid() && Model() == World.Remove(old(Model()), id)
    {
      if id in creatures {
        creatures := creatures - {id};
      }
      assert Cells() == old(Cells());
      assert Model() == World.Remove(old(Model()), id);
    }

    /** `Toroid.add` */
    method Add(id: Id)
      requires Valid() && id in fish
      modifies this
      ensures Valid() && Model() == World.Add(old(Model()), id)
    {
      creatures := creatures + {id};
      assert Cells() == old(Cells());
      assert Model() == World.Add(old(Model()), id);
      assert World.Valid(Model());
    }

    /** `Fish.__init__` and `Predator.__init__`: a new fish at `p`, stored in its cell and added. */
    method NewFish(cfg: Config, species: Species, p: Position) returns (id: Id)
      requires Valid() && InBounds(width, height, p)
      modifies this, grid
      ensures Valid() && Model() == World.NewFish(old(Model()), cfg, species, p) && id == old(nextId)
    {
      id := nextId;
      nextId := nextId + 1;
      fish := fish[id := Fish(species, p, None, 0, if species == Predator then cfg.initialEnergy else 0)];
      assert Cells() == old(Cells());
      assert Model() == Register(old(Model()), fish[id]);
      Put(p, Some(id));
      Add(id);
    }

    /** `Fish.grow` */
    method Grow(id: Id)
      requires Valid() && id in fish
      modifies this
      ensures Valid() && Model() == World.Grow(old(Model()), id)
    {
      fish := fish[id := fish[id].(age := fish[id].age + 1)];
      assert Cells() == old(Cells());
      assert Model() == SetFish(old(Model()), id, fish[id]);
    }

    /** `Fish.die` */
    method Die(id: Id)
      requires Valid() && id in fish
      modifies this, grid
      ensures Valid() && Model() == World.Die(old(Model()), id)
    {
      Put(fish[id].position, None);
      Remove(id);
    }

    /** The comprehension of `pick_direction` and `pick_meal` over `adjacent_spaces`. */
    method Candidates(ps: seq<Position>, c: Criterion) returns (possible: seq<Position>)
      requires Valid() && forall q :: q in ps ==> InBounds(width, height, q)
      ensures possible == World.Candidates(Model(), ps, c)
    {
      possible := [];
      for i := 0 to |ps|
        invariant possible == World.Candidates(Model(), ps[..i], c)
      {
        var keep: bool;
        match c {
          case Vacant => keep := Open(ps[i]);
          case HoldsPrey => keep := Contains(ps[i], Prey);
        }
        assert ps[..i + 1][..i] == ps[..i];
        if keep {
          possible := possible + [ps[i]];
        }
      }
      assert ps[..|ps|] == ps;
    }

    /** `Fish.pick_direction`, with the random draw supplied as `pick`. */
    method PickDirection(id: Id, pick: nat) returns (r: Option<Position>)
      requires Valid() && id in fish
      ensures r == World.PickDirection(Model(), id, pick)
    {
      var possible := Candidates(Spaces(AdjacentSpaces(width, height, fish[id].position)), Vacant);
      r := if possible == [] then None else Some(possible[pick % |possible|]);
    }

    /** `Fish.move`: the fish's own fields change first, then `Toroid.update` may raise. */
    method Move(id: Id, target: Position) returns (ok: bool)
      requires Valid() && id in fish && InBounds(width, height, target)
      modifies this, grid
      ensures Valid()
      ensures var r := World.Move(old(Model()), id, target); Model() == r.state && ok == r.Ok?
    {
      var f := fish[id];
      fish := fish[id := f.(position := target, lastPosition := Some(f.position))];
      assert Cells() == old(Cells());
      assert Model() == SetFish(old(Model()), id, fish[id]);
      ok := Update(id);
    }

    /** `Fish.spawn` */
    method Spawn(cfg: Config, id: Id)
      requires Valid() && id in fish
      modifies this, grid
      ensures Valid() && Model() == World.Spawn(old(Model()), cfg, id)
    {
      var f := fish[id];
      if f.age >= Maturity(cfg, f.species) {
        if f.lastPosition.Some? {
          var _ := NewFish(cfg, f.species, f.lastPosition.value);
        }
        ghost var before := Model();
        fish := fish[id := fish[id].(age := 0)];
        assert Cells() == before.cells;
        assert Model() == SetFish(before, id, fish[id]);
      }
    }

    /** `Fish.update`, which is what a prey does each tick. */
    method FishUpdate(cfg: Config, id: Id, pick: nat) returns (ok: bool)
      requires Valid() && id in fish
      modifies this, grid
      ensures Valid()
      ensures var r := World.FishUpdate(old(Model()), cfg, id, pick); Model() == r.state && ok == r.Ok?
    {
      var choice := PickDirection(id, pick);
      ok := true;
      if choice.Some? {
        ok := Move(id, choice.value);
      }
      if ok {
        Grow(id);
        Spawn(cfg, id);
      }
    }

    /** `Prey.eat`: the prey dies and its species' energy yield is returned. */
    method Eat(cfg: Config, id: Id) returns (gain: int)
      requires Valid() && id in fish
      modifies this, grid
      ensures Valid()
      ensures var r := World.Eat(old(Model()), cfg, id); Model() == r.0 && gain == r.1
    {
      Die(id);
      gain := Yield(cfg, fish[id].species);
    }

    /** `Predator.grow` */
    method PredatorGrow(id: Id)
      requires Valid() && id in fish
      modifies this, grid
      ensures Valid() && Model() == World.PredatorGrow(old(Model()), id)
    {
      var f := fish[id];
      fish := fish[id := f.(age := f.age + 1, energy := f.energy - 1)];
      assert Cells() == old(Cells());
      assert Model() == SetFish(old(Model()), id, fish[id]);
      if f.energy - 1 <= 0 {
        Die(id);
      }
    }

    /** `Predator.chomp`: eat the prey at `c`, gain its yield, move onto `c`. */
    method Chomp(cfg: Config, id: Id, c: Position) returns (ok: bool)
      requires Valid() && id in fish && fish[id].species == Predator
      requires InBounds(width, height, c) && World.Contains(Model(), c, Prey)
      modifies this, grid
      ensures Valid()
      ensures var r := World.Chomp(old(Model()), cfg, id, c); Model() == r.state && ok == r.Ok?
    {
      Feed(cfg, id, c);
      ok := Move(id, c);
    }

    /** The first two lines of `Predator.chomp`: the meal is eaten and its yield added to the energy. */
    method Feed(cfg: Config, id: Id, c: Position)
      requires Valid() && id in fish && fish[id].species == Predator
      requires InBounds(width, height, c) && World.Contains(Model(), c, Prey)
      modifies this, grid
      ensures Valid() && Model() == World.Feed(old(Model()), cfg, id, c)
    {
      var meal := grid[c.y, c.x].value;
      var gain := Eat(cfg, meal);
      ghost var eaten := Model();
      fish := fish[id := fish[id].(energy := fish[id].energy + gain)];
      assert Cells() == eaten.cells;
      assert Model() == SetFish(eaten, id, fish[id]);
    }

    /** `Predator.pick_meal`, with the random draw supplied as `pick`. */
    method PickMeal(id: Id, pick: nat) returns (r: Option<Position>)
      requires Valid() && id in fish
      ensures r == World.PickMeal(Model(), id, pick)
    {
      var possible := Candidates(Spaces(AdjacentSpaces(width, height, fish[id].position)), HoldsPrey);
      r := if possible == [] then None else Some(possible[pick % |possible|]);
    }

    /**
     * `Predator.update`: chomp, or else move, or else stay; `Predator.spawn`
     * does nothing; then `grow`, unless a collision was raised first.
     */
    method PredatorUpdate(cfg: Config, id: Id, pick: nat) returns (ok: bool)
      requires Valid() && id in fish && fish[id].species == Predator
      modifies this, grid
      ensures Valid()
      ensures var r := World.PredatorUpdate(old(Model()), cfg, id, pick); Model() == r.state && ok == r.Ok?
    {
      var meal := PickMeal(id, pick);
      if meal.Some? {
        ok := Chomp(cfg, id, meal.value);
      } else {
        var choice := PickDirection(id, pick);
        ok := true;
        if choice.Some? {
          ok := Move(id, choice.value);
        }
      }
      if ok {
        PredatorGrow(id);
      }
    }

    /** `critter.update()`, dispatched on the fish's class. */
    method CritterUpdate(cfg: Config, id: Id, pick: nat) returns (ok: bool)
      requires Valid() && id in fish
      modifies this, grid
      ensures Valid()
      ensures var r := World.CritterUpdate(old(Model()), cfg, id, pick); Model() == r.state && ok == r.Ok?
    {
      if fish[id].species == Predator {
        ok := PredatorUpdate(cfg, id, pick);
      } else {
        ok := FishUpdate(cfg, id, pick);
      }
    }

    /**
     * `Toroid.advance`: every creature live at the start, in the order of the
     * snapshot `order`, is updated with its own draw from `picks`; a collision
     * ends the tick (`ok` false) with the updates made so far.
     */
    method Advance(cfg: Config, picks: seq<nat>) returns (order: seq<Id>, ok: bool)
      requires Valid() && |picks| == |creatures|
      modifies this, grid
      ensures Valid()
      ensures |order| == |old(creatures)| && (forall id :: id in order <==> id in old(creatures))
      ensures forall i, j :: 0 <= i < j < |order| ==> order[i] != order[j]
      ensures var r := Tick(old(Model()), cfg, order, picks); Model() == r.state && ok == r.Ok?
    {
      order := Snapshot();
      ok := true;
      var i := 0;
      while i < |order| && ok
        invariant 0 <= i <= |order| && Valid()
        invariant forall id :: id in order ==> id in fish
        invariant var r := Tick(old(Model()), cfg, order, picks);
          if ok then r == Tick(Model(), cfg, order[i..], picks[i..]) else Model() == r.state && !r.Ok?
        decreases |order| - i, ok
      {
        ghost var before := Model();
        assert order[i..][0] == order[i] && order[i..][1..] == order[i + 1..];
        assert picks[i..][0] == picks[i] && picks[i..][1..] == picks[i + 1..];
        ok := CritterUpdate(cfg, order[i], picks[i]);
        assert Model() == World.CritterUpdate(before, cfg, order[i], picks[i]).state;
        i := i + 1;
      }
    }

    /** `list(self.creatures)`: the live creatures, each once, in some order. */
    method Snapshot() returns (order: seq<Id>)
      requires Valid()
      ensures |order| == |creatures| && (forall id :: id in order <==> id in creatures)
      ensures forall i, j :: 0 <= i < j < |order| ==> order[i] != order[j]
      ensures forall id :: id in order ==> id in fish
    {
      order := [];
      var rest := creatures;
      while rest != {}
        invariant rest <= creatures && (forall id :: id in order <==> id in creatures - rest)
        invariant |order| + |rest| == |creatures|
        invariant forall i, j :: 0 <= i < j < |order| ==> order[i] != order[j]
        decreases |rest|
      {
        var id :| id in rest;
        order := order + [id];
        rest := rest - {id};
      }
    }
  }
}

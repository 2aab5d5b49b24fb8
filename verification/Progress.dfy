/**
 * The comparison pipeline never gets stuck: which of its steps can be taken (sync_diff_inspector/diff.go).
 */
module Progress {
  import opened Wrappers
  import opened Nodes
  import opened Heaps
  import Checkpoints
  import opened Reports
  import opened Protocol

  ghost predicate Can(setup: Setup, p: Point, e: Event) {
    exists p' :: Next(setup, p, e, p')
  }

  /** Where a step leads from a state when all but the machine is known. */
  lemma {:induction false} Taken(setup: Setup, p: Point, e: Event, m': Machine)
    requires Allowed(setup, p, e) && Runs(setup, p, e, m')
    ensures Can(setup, p, e)
  {
    assert Next(setup, p, e, Point(Record(setup, p, e), m'));
  }

  lemma {:induction false} MinimalExists(h: multiset<Node>) returns (x: Node)
    requires h != multiset{} && StrictWeak(IsLess)
    ensures x in h && Minimal(x, h, IsLess)
    decreases |h|
  {
    var first :| first in h;
    var rest := h - multiset{first};
    assert h == multiset{first} + rest;
    x := first;
    if rest != multiset{} {
      var y := MinimalExists(rest);
      x := if IsLess(first, y) then first else y;
      MinimalOfBoth(h, first, rest, y, x);
    } else {
      assert forall z :: z in h ==> z == first;
    }
  }

  lemma {:induction false} MinimalOfBoth(h: multiset<Node>, first: Node, rest: multiset<Node>, y: Node, x: Node)
    requires h == multiset{first} + rest && Minimal(y, rest, IsLess) && x == if IsLess(first, y) then first else y
    ensures Minimal(x, h, IsLess)
  {
    forall z: Node | z in h
      ensures !IsLess(z, x)
    {
      if z != first {
        assert z in rest && !IsLess(z, y);
      }
    }
  }

  /** A flush takes out what it can, and then stops. */
  lemma {:induction false} DrainExists(h: multiset<Node>, saved: Node) returns (popped: seq<Node>, left: multiset<Node>)
    requires StrictWeak(IsLess)
    ensures Checkpoints.Drains(h, saved, popped, left)
    decreases |h|
  {
    popped, left := [], h;
    if h != multiset{} {
      var x := MinimalExists(h);
      if IsAdjacent(saved, x) {
        var more;
        more, left := DrainExists(h - multiset{x}, x);
        popped := [x] + more;
        assert popped[1..] == more;
      }
    }
  }

  lemma {:induction false} CanPop(setup: Setup, p: Point)
    requires p.m.pending.Idle? && p.h.pos < |p.h.nodes|
    ensures Can(setup, p, Pop)
  {
    Checkpoints.OrderOk();
    var popped, left := DrainExists(p.m.heap, p.m.current);
    var current := Checkpoints.LastOr(popped, p.m.current);
    var m' := p.m.(heap := left, current := current, pending := if popped == [] then Idle else Pending.Popped(current));
    assert Popping(p.m, m', popped);
    Taken(setup, p, Pop, m');
  }

  lemma {:induction false} CanSave(setup: Setup, p: Point)
    requires Inv(setup, p)
    ensures p.m.pending.Popped? ==> Can(setup, p, Snap)
    ensures p.m.pending.Snapped? ==> Can(setup, p, Save) && Can(setup, p, Lose)
  {
    if p.m.pending.Popped? {
      var n := p.m.pending.node;
      var t := TableOf(setup, n);
      Taken(setup, p, Snap, p.m.(pending := Snapped(n, if SnapshotOk(p.m.report, t) then Some(Snapshot(p.m.report, t, n.id)) else None)));
    }
    if p.m.pending.Snapped? {
      Taken(setup, p, Save, p.m.(saved := Some(Saved(p.m.pending.node, p.m.pending.report)), pending := Idle));
      Taken(setup, p, Lose, p.m.(pending := Idle));
    }
  }

  lemma {:induction false} CanWork(setup: Setup, p: Point, i: nat, f: Finding)
    requires Inv(setup, p) && 0 < i < |p.h.nodes|
    ensures i !in p.h.seen ==> Can(setup, p, Consume(i, f))
    ensures i in p.h.seen && i !in p.h.written ==> Can(setup, p, Write(i))
    ensures i in p.h.written && i !in p.h.finished ==> Can(setup, p, Insert(i))
  {
    var n := p.h.nodes[i];
    assert Emitted(setup, n);
    var t := TableOf(setup, n);
    if i !in p.h.seen {
      Taken(setup, p, Consume(i, f), p.m.(report := p.m.report[t := WithVerdict(p.m.report[t], f.verdict, n.id)]));
    } else if i !in p.h.written {
      Taken(setup, p, Write(i), if !p.h.seen[i].hasSql then p.m
                                else if NameOf(setup, n) in p.m.files then p.m.(fatal := true)
                                else p.m.(files := p.m.files + {NameOf(setup, n)}));
    } else if i !in p.h.finished {
      Taken(setup, p, Insert(i), p.m.(heap := p.m.heap + multiset{n}));
    }
  }

  lemma {:induction false} CanCrash(setup: Setup, p: Point, more: seq<Node>)
    requires p.h.at < |p.h.nodes| && Shape(setup, p.h.nodes[..p.h.at + 1] + more) && !RemovalFails(setup, p.m.files)
    ensures Can(setup, p, Crash(more))
  {
    Taken(setup, p, Crash(more),
          Machine(Loaded(setup, p.m.saved), multiset{}, From(p.m.saved), Idle, p.m.saved, Remaining(setup, p.m.files, From(p.m.saved).id), false));
  }

  /**
   * In every state of every run: each chunk can be compared with any outcome, then its file can be written and its node
   * inserted, at any time; the background loop can make its next step, and a save be lost; and the program can crash and
   * start again over any chunks that continue the saved one.
   */
  lemma {:induction false} NeverStuck(setup: Setup, events: seq<Event>, p: Point, i: nat, f: Finding, more: seq<Node>)
    requires SetupOk(setup) && Reachable(setup, events, p) && 0 < i < |p.h.nodes|
    ensures i in p.h.finished || Can(setup, p, if i !in p.h.seen then Consume(i, f) else if i !in p.h.written then Write(i) else Insert(i))
    ensures match p.m.pending
            case Idle => Can(setup, p, Pop)
            case Popped(_) => Can(setup, p, Snap)
            case Snapped(_, _) => Can(setup, p, Save) && Can(setup, p, Lose)
    ensures p.h.at < |p.h.nodes| && (Shape(setup, p.h.nodes[..p.h.at + 1] + more) ==> Can(setup, p, Crash(more)))
  {
    Always(setup, events, p);
    NothingFails(setup, events, p);
    CanWork(setup, p, i, f);
    CanSave(setup, p);
    if p.m.pending.Idle? {
      CanPop(setup, p);
    }
    if Shape(setup, p.h.nodes[..p.h.at + 1] + more) {
      CanCrash(setup, p, more);
    }
  }
}

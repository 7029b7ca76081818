/**
 * `ActionRepository`: the actions of every portfolio, stored under their uuids, with queries
 * that select one portfolio's actions (optionally up to a time) and return them ordered by time.
 */
module ActionStore {
  import opened Wrappers
  import opened Actions
  import opened Sorting
  import Folds

  /** `Comparator.comparing(BaseAction::getDatetime)`. */
  function ByDatetime(a: Action, b: Action): bool
  {
    a.datetime <= b.datetime
  }

  lemma ByDatetimeIsTotalOrder()
    ensures Total(ByDatetime) && Transitive(ByDatetime)
  {
  }

  /** Each action is stored under its own uuid. */
  ghost predicate Keyed(m: map<string, Action>)
  {
    forall u :: u in m ==> m[u].uuid == u
  }

  /** What the two stream queries keep: the portfolio's actions, and with a cutoff only those not after it. */
  predicate Selected(a: Action, p: string, until: Option<int>)
  {
    a.portfolio == p && (until.Some? ==> a.datetime <= until.value)
  }

  /** The actions of portfolio `p` stored in `m`. */
  ghost function ActionsIn(m: map<string, Action>, p: string): set<Action>
  {
    set a | a in m.Values && a.portfolio == p
  }

  /** The actions of portfolio `p` stored in `m` whose time is not after `t`. */
  ghost function ActionsInUntil(m: map<string, Action>, p: string, t: int): set<Action>
  {
    set a | a in m.Values && a.portfolio == p && a.datetime <= t
  }

  /** Storing an action under a new uuid adds it, and nothing else, to the stored actions. */
  lemma ValuesAfterInsert(m: map<string, Action>, a: Action)
    requires Keyed(m) && a.uuid !in m
    ensures Keyed(m[a.uuid := a])
    ensures m[a.uuid := a].Values == m.Values + {a}
    ensures a !in m.Values
  {
    var m' := m[a.uuid := a];
    forall b ensures b in m'.Values <==> b in m.Values || b == a {
      if b in m'.Values {
        var k :| k in m' && m'[k] == b;
        if k != a.uuid {
          assert m[k] == b;
        }
      }
      if b in m.Values {
        var k :| k in m && m[k] == b;
        assert m'[k] == b;
      }
      assert m'[a.uuid] == a;
    }
    forall k | k in m ensures m[k] != a {
      assert m[k].uuid == k;
    }
  }

  /** A new action joins the actions of its own portfolio (up to any time it does not exceed), and no other. */
  lemma ActionsAfterInsert(m: map<string, Action>, a: Action, p: string, t: int)
    requires Keyed(m) && a.uuid !in m
    ensures a !in ActionsIn(m, p) && a !in ActionsInUntil(m, p, t)
    ensures ActionsIn(m[a.uuid := a], p) ==
      if a.portfolio == p then ActionsIn(m, p) + {a} else ActionsIn(m, p)
    ensures ActionsInUntil(m[a.uuid := a], p, t) ==
      if a.portfolio == p && a.datetime <= t then ActionsInUntil(m, p, t) + {a} else ActionsInUntil(m, p, t)
  {
    ValuesAfterInsert(m, a);
  }

  class ActionRepository {
    var actions: map<string, Action>

    ghost predicate Valid()
      reads this
    {
      Keyed(actions)
    }

    /** The stored actions of portfolio `p`. */
    ghost function ActionsOf(p: string): set<Action>
      reads this
    {
      ActionsIn(actions, p)
    }

    /** The stored actions of portfolio `p` not after `t`. */
    ghost function ActionsOfUntil(p: string, t: int): set<Action>
      reads this
    {
      ActionsInUntil(actions, p, t)
    }

    constructor ()
      ensures Valid()
      ensures actions == map[]
    {
      actions := map[];
    }

    /** `findById`: the action stored under `uuid`, if any; it carries that uuid. */
    function FindById(uuid: string): (r: Option<Action>)
      reads this
      requires Valid()
      ensures r.Some? <==> uuid in actions
      ensures r.Some? ==> r.value.uuid == uuid && r.value in ActionsOf(r.value.portfolio)
    {
      if uuid in actions then Some(actions[uuid]) else None
    }

    /** `save`: stores the action under its uuid, replacing any earlier one, and returns it. */
    method Save(action: Action) returns (r: Action)
      requires Valid()
      modifies this
      ensures Valid()
      ensures r == action
      ensures actions == old(actions)[action.uuid := action]
      ensures FindById(action.uuid) == Some(action)
    {
      actions := actions[action.uuid := action];
      r := action;
    }

    /** `deleteById`: removes the entry `uuid` and leaves every other one as it was. */
    method DeleteById(uuid: string)
      requires Valid()
      modifies this
      ensures Valid()
      ensures actions == old(actions) - {uuid}
      ensures FindById(uuid) == None
      ensures forall u :: u != uuid ==> FindById(u) == old(FindById(u))
    {
      actions := actions - {uuid};
    }

    /** `clear`: afterwards nothing is found. */
    method Clear()
      modifies this
      ensures Valid()
      ensures actions == map[]
      ensures forall u :: FindById(u) == None
      ensures forall p :: ActionsOf(p) == {}
      ensures forall p, t :: ActionsOfUntil(p, t) == {}
    {
      actions := map[];
    }

    /** The selecting half of both stream queries: the matching stored actions, each once, in no particular order. */
    method Select(p: string, until: Option<int>) returns (r: seq<Action>)
      requires Valid()
      ensures Folds.Distinct(r)
      ensures forall a :: a in r <==> a in actions.Values && Selected(a, p, until)
    {
      r := [];
      var rest := actions.Keys;
      while rest != {}
        invariant rest <= actions.Keys
        invariant Folds.Distinct(r)
        invariant forall a :: a in r <==> a in actions.Values && Selected(a, p, until) && a.uuid !in rest
        decreases rest
      {
        var u :| u in rest;
        var a := actions[u];
        forall b | b in actions.Values ensures b.uuid == u <==> b == a {
          var k :| k in actions && actions[k] == b;
        }
        if Selected(a, p, until) {
          r := r + [a];
        }
        rest := rest - {u};
      }
    }

    /** `findAllActionsOf`: exactly the stored actions of `p`, each once, in non-decreasing time. */
    method FindAllActionsOf(p: string) returns (r: seq<Action>)
      requires Valid()
      ensures Folds.Distinct(r)
      ensures forall a :: a in r <==> a in ActionsOf(p)
      ensures Sorted(r, ByDatetime)
    {
      var matching := Select(p, None);
      ByDatetimeIsTotalOrder();
      r := InsertionSort(matching, ByDatetime);
      Folds.DistinctOfPermutation(matching, r);
      assert forall a :: a in r <==> a in multiset(matching);
    }

    /** `findAllActionsOfUntilDate`: `findAllActionsOf(p)` cut at `t`, inclusive, still in non-decreasing time. */
    method FindAllActionsOfUntilDate(p: string, t: int) returns (r: seq<Action>)
      requires Valid()
      ensures Folds.Distinct(r)
      ensures forall a :: a in r <==> a in ActionsOfUntil(p, t)
      ensures forall a :: a in r <==> a in ActionsOf(p) && a.datetime <= t
      ensures Sorted(r, ByDatetime)
    {
      var matching := Select(p, Some(t));
      ByDatetimeIsTotalOrder();
      r := InsertionSort(matching, ByDatetime);
      Folds.DistinctOfPermutation(matching, r);
      forall a ensures a in r <==> a in ActionsOfUntil(p, t) {
        assert a in r <==> a in multiset(matching);
      }
    }
  }
}

/** The concurrency budget: per-tenant and total slots, released at most once per grant. */
module Budgets {

  datatype Limits = Limits(perKey: int, total: int)

  datatype Budget = Budget(perKey: map<string, int>, total: int)

  const UNUSED := Budget(map[], 0)

  function CountOf(b: Budget, key: string): int {
    if key in b.perKey then b.perKey[key] else 0
  }

  predicate HasRoom(limits: Limits, b: Budget, key: string) {
    && !(limits.perKey > 0 && CountOf(b, key) >= limits.perKey)
    && !(limits.total > 0 && b.total >= limits.total)
  }

  function Acquired(b: Budget, key: string): Budget {
    Budget(b.perKey[key := CountOf(b, key) + 1], b.total + 1)
  }

  function Released(b: Budget, key: string): Budget {
    Budget(if CountOf(b, key) == 1 then b.perKey - {key} else b.perKey[key := CountOf(b, key) - 1], b.total - 1)
  }

  /** `held` lists the tenants of the grants not yet released; the counters agree with it and with the limits. */
  ghost predicate Holds(limits: Limits, b: Budget, held: multiset<string>) {
    && b.total == |held|
    && (forall k :: k in b.perKey <==> held[k] > 0)
    && (forall k :: k in b.perKey ==> b.perKey[k] == held[k])
    && (limits.perKey > 0 ==> forall k :: k in b.perKey ==> b.perKey[k] <= limits.perKey)
    && (limits.total > 0 ==> b.total <= limits.total)
  }

  lemma AcquireHolds(limits: Limits, b: Budget, held: multiset<string>, key: string)
    requires Holds(limits, b, held) && HasRoom(limits, b, key)
    ensures Holds(limits, Acquired(b, key), held + multiset{key})
  {
  }

  lemma ReleaseHolds(limits: Limits, b: Budget, held: multiset<string>, key: string)
    requires Holds(limits, b, held) && key in held
    ensures Holds(limits, Released(b, key), held - multiset{key})
  {
  }

  /** A slot is granted exactly while the tenant's unreleased grants, and all of them, are below their limits. */
  lemma RoomIffBelowLimits(limits: Limits, b: Budget, held: multiset<string>, key: string)
    requires Holds(limits, b, held)
    ensures HasRoom(limits, b, key)
            <==> (limits.perKey > 0 ==> held[key] < limits.perKey) && (limits.total > 0 ==> |held| < limits.total)
  {
    assert CountOf(b, key) == held[key];
  }

  // The total is the sum of the per-tenant counts.

  ghost function AnyKey(m: map<string, int>): (k: string)
    requires m != map[]
    ensures k in m
  {
    assert m.Keys != {};
    var k :| k in m;
    k
  }

  ghost function Sum(m: map<string, int>): int {
    if m == map[] then 0
    else
      var k := AnyKey(m);
      m[k] + Sum(m - {k})
  }

  lemma {:induction false} SumIsSize(m: map<string, int>, held: multiset<string>)
    requires forall k :: k in m <==> held[k] > 0
    requires forall k :: k in m ==> m[k] == held[k]
    ensures Sum(m) == |held|
    decreases |m|
  {
    if m == map[] {
      assert held == multiset{};
    } else {
      var k := AnyKey(m);
      SumIsSize(m - {k}, held[k := 0]);
    }
  }

  lemma TotalIsSum(limits: Limits, b: Budget, held: multiset<string>)
    requires Holds(limits, b, held)
    ensures b.total == Sum(b.perKey) == |held|
  {
    SumIsSize(b.perKey, held);
  }

  class ConcurrencyBudget {
    const limits: Limits
    var perKey: map<string, int>
    var total: int
    ghost var held: multiset<string>

    constructor (keyLimit: int, totalLimit: int)
      ensures limits == Limits(keyLimit, totalLimit) && Valid() && View() == UNUSED && held == multiset{}
    {
      limits := Limits(keyLimit, totalLimit);
      perKey, total, held := map[], 0, multiset{};
    }

    function View(): Budget
      reads this
    {
      Budget(perKey, total)
    }

    ghost predicate Valid()
      reads this
    {
      Holds(limits, View(), held)
    }

    /** An empty key is not limited: it gets a grant that counts nothing. */
    method Acquire(key: string) returns (grant: Grant?)
      requires Valid()
      modifies this
      ensures Valid()
      ensures grant == null <==>
                && key != ""
                && (|| (limits.perKey > 0 && old(held)[key] >= limits.perKey)
                    || (limits.total > 0 && |old(held)| >= limits.total))
      ensures grant != null ==> fresh(grant) && !grant.done && grant.key == key && grant.budget == this
      ensures held == old(held) + if grant != null && key != "" then multiset{key} else multiset{}
      ensures grant == null || key == "" ==> View() == old(View())
    {
      if key == "" {
        grant := new Grant(this, key);
        return;
      }
      assert HasRoom(limits, View(), key)
             <==> !(limits.perKey > 0 && held[key] >= limits.perKey) && !(limits.total > 0 && |held| >= limits.total) by {
        RoomIffBelowLimits(limits, View(), held, key);
      }
      var count := if key in perKey then perKey[key] else 0;
      if (limits.perKey > 0 && count >= limits.perKey) || (limits.total > 0 && total >= limits.total) {
        return null;
      }
      AcquireHolds(limits, View(), held, key);
      perKey := perKey[key := count + 1];
      total := total + 1;
      held := held + multiset{key};
      grant := new Grant(this, key);
    }
  }

  /** The release function returned by Acquire, with its sync.Once. */
  class Grant {
    const budget: ConcurrencyBudget
    const key: string
    var done: bool

    constructor (budget: ConcurrencyBudget, key: string)
      ensures this.budget == budget && this.key == key && !done
    {
      this.budget, this.key, done := budget, key, false;
    }

    method Release()
      requires budget.Valid() && (done || key == "" || key in budget.held)
      modifies this, budget
      ensures done && budget.Valid()
      ensures budget.held == old(budget.held) - if old(done) || key == "" then multiset{} else multiset{key}
      ensures old(done) ==> budget.View() == old(budget.View())
    {
      if !done {
        done := true;
        if key != "" {
          ReleaseHolds(budget.limits, budget.View(), budget.held, key);
          var left := budget.perKey[key] - 1;
          budget.perKey := if left == 0 then budget.perKey - {key} else budget.perKey[key := left];
          budget.total := budget.total - 1;
          budget.held := budget.held - multiset{key};
        }
      }
    }
  }
}

/** Paying for a series of solves out of one node budget: each is given what the ones before it left
    over, and the series stops at the first that cannot be afforded.
 */
module Bills {
  import opened Arithmetic
  import opened HittingSets

  /** The nodes and solves counted so far, and whether every solve so far finished. */
  datatype Account = Account(nodes: nat, solves: nat, going: bool)

  const Open: Account := Account(0, 0, true)

  /** One more solve: it finishes when what is left covers its cost. */
  function Pay(a: Account, budget: int, cost: nat): Account {
    if !a.going then a
    else Account(a.nodes + Reported(budget - a.nodes, cost), a.solves + 1, cost <= budget - a.nodes)
  }

  /** A second series, run on what the first left over. */
  function Joined(a: Account, b: Account): Account {
    if !a.going then a else Account(a.nodes + b.nodes, a.solves + b.solves, b.going)
  }

  /** After at most `n` solves of at most `each` nodes. */
  ghost predicate Within(a: Account, budget: int, n: nat, each: nat) {
    forall most :: Product(a.solves, each, most) ==> WithinMost(a, budget, n, most)
  }

  predicate Product(n: nat, each: nat, most: nat) {
    most == n * each
  }

  /** A series that is still going has overspent nothing, and one that stopped has used its whole
      budget, which was less than its solves cost. */
  ghost predicate WithinMost(a: Account, budget: int, n: nat, most: nat) {
    && a.solves <= n
    && if a.going then a.nodes <= most && (a.solves > 0 ==> a.nodes <= budget)
       else a.nodes >= budget && budget < most
  }

  lemma PayWithin(a: Account, budget: int, n: nat, each: nat, cost: nat)
    requires Within(a, budget, n, each) && 1 <= cost <= each
    ensures Within(Pay(a, budget, cost), budget, n + 1, each)
  {
    var most := a.solves * each;
    assert Product(a.solves, each, most);
    assert (a.solves + 1) * each == most + each;
  }

  lemma JoinedWithin(a: Account, b: Account, budget: int, n: nat, m: nat, each: nat)
    requires Within(a, budget, n, each) && (a.going ==> Within(b, budget - a.nodes, m, each))
    ensures Within(Joined(a, b), budget, n + m, each)
  {
    assert Product(a.solves, each, a.solves * each) && Product(b.solves, each, b.solves * each);
    assert (a.solves + b.solves) * each == a.solves * each + b.solves * each;
  }

  lemma WithinMonotone(a: Account, budget: int, n: nat, m: nat, each: nat)
    requires Within(a, budget, n, each) && n <= m
    ensures Within(a, budget, m, each)
  {
    assert Product(a.solves, each, a.solves * each);
  }

  /** A stopped series has used its whole budget; a budget for every solve stops none. */
  lemma WithinMeans(a: Account, budget: int, n: nat, each: nat)
    requires Within(a, budget, n, each)
    ensures a.solves <= n && (!a.going ==> a.nodes >= budget)
    ensures budget >= n * each ==> a.going
  {
    assert Product(a.solves, each, a.solves * each);
    TimesMonotone(a.solves, n, each);
  }
}

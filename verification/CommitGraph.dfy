/** Commits and their parents: what `git rev-list` counts and `git merge-base --is-ancestor` answer. */
module CommitGraph {

  /** A commit's full name. */
  type Commit = string
  type Graph = map<Commit, seq<Commit>>

  /** p goes from a commit back along parents. */
  predicate Line(g: Graph, p: seq<Commit>) {
    && p != [] && (forall i | 0 <= i < |p| :: p[i] in g)
    && forall i | 0 < i < |p| :: p[i] in g[p[i - 1]]
  }

  predicate LineBetween(g: Graph, p: seq<Commit>, from: Commit, to: Commit) {
    Line(g, p) && p[0] == from && p[|p| - 1] == to
  }

  ghost predicate Reaches(g: Graph, from: Commit, to: Commit) {
    exists p :: LineBetween(g, p, from, to)
  }

  ghost predicate Acyclic(g: Graph) {
    forall p | Line(g, p) && p[0] == p[|p| - 1] :: |p| == 1
  }

  /** A commit together with its ancestors. */
  ghost function History(g: Graph, c: Commit): set<Commit> {
    set d | d in g && Reaches(g, c, d)
  }

  /** `git rev-list --count excluded..included`. */
  ghost function CountBetween(g: Graph, excluded: Commit, included: Commit): nat {
    |History(g, included) - History(g, excluded)|
  }

  lemma InOwnHistory(g: Graph, c: Commit)
    requires c in g
    ensures c in History(g, c)
  {
    assert LineBetween(g, [c], c, c);
  }

  lemma LinesJoin(g: Graph, a: Commit, b: Commit, c: Commit, p: seq<Commit>, q: seq<Commit>)
    requires LineBetween(g, p, a, b) && LineBetween(g, q, b, c)
    ensures LineBetween(g, p + q[1..], a, c)
  {
  }

  lemma HistoryIsClosed(g: Graph, c: Commit, d: Commit)
    requires d in History(g, c)
    ensures History(g, d) <= History(g, c)
  {
    var p :| LineBetween(g, p, c, d);
    forall e | e in History(g, d) ensures e in History(g, c) {
      var q :| LineBetween(g, q, d, e);
      LinesJoin(g, c, d, e, p, q);
    }
  }

  /** Two commits that reach each other are one. */
  lemma HistoriesOrder(g: Graph, a: Commit, b: Commit)
    requires Acyclic(g) && Reaches(g, a, b) && Reaches(g, b, a)
    ensures a == b
  {
    var p :| LineBetween(g, p, a, b);
    var q :| LineBetween(g, q, b, a);
    LinesJoin(g, a, b, a, p, q);
  }

  /** Nothing is left to count exactly when the included commit is already in the other's history. */
  lemma NothingBetweenIff(g: Graph, excluded: Commit, included: Commit)
    requires excluded in g && included in g
    ensures CountBetween(g, excluded, included) == 0 <==> Reaches(g, excluded, included)
  {
    var left := History(g, included) - History(g, excluded);
    InOwnHistory(g, included);
    if |left| == 0 {
      assert left == {};
      assert included !in left;
    }
    if Reaches(g, excluded, included) {
      HistoryIsClosed(g, excluded, included);
      assert left == {};
    }
  }
}

/**
 Pruning a list of paths to its topmost ones (app/services/caddy.py, `_prune_duplicate_paths`).
 A path is the sequence of its parts; `is_relative_to` is being an extension of it.
 */
module Paths {
  import S = Sorting

  type Path = seq<string>

  /** The order of the candidates: fewer parts first, then by text. */
  function Shorter(text: Path -> string): (Path, Path) -> bool {
    (a: Path, b: Path) => |a| < |b| || (|a| == |b| && S.TextLe(text(a), text(b)))
  }

  lemma ShorterIsOrder(text: Path -> string)
    ensures S.IsOrder(Shorter(text))
  {
    var le := Shorter(text);
    forall a: Path, b: Path ensures le(a, b) || le(b, a) {
      S.TextLeTotal(text(a), text(b));
    }
    forall a: Path, b: Path, c: Path | le(a, b) && le(b, c) ensures le(a, c) {
      if |a| == |b| == |c| {
        S.TextLeTransitive(text(a), text(b), text(c));
      }
    }
  }

  function Unique(paths: seq<Path>): seq<Path> {
    if paths == [] then [] else (if paths[0] in paths[1..] then [] else [paths[0]]) + Unique(paths[1..])
  }

  lemma {:induction false} UniqueMembers(paths: seq<Path>, p: Path)
    ensures p in Unique(paths) <==> p in paths
  {
    if paths != [] {
      UniqueMembers(paths[1..], p);
      assert paths == [paths[0]] + paths[1..];
    }
  }

  /** No path lies in or under another. */
  predicate Antichain(paths: seq<Path>) {
    forall i, j :: 0 <= i < |paths| && 0 <= j < |paths| && i != j ==> !(paths[i] <= paths[j])
  }

  predicate Covered(p: Path, kept: seq<Path>) {
    exists k :: 0 <= k < |kept| && kept[k] <= p
  }

  /** `p` has exactly one ancestor, or itself, among the kept ones. */
  predicate CoveredOnce(p: Path, kept: seq<Path>) {
    exists k :: 0 <= k < |kept| && kept[k] <= p && forall j :: 0 <= j < |kept| && kept[j] <= p ==> j == k
  }

  lemma OnceInAntichain(p: Path, kept: seq<Path>)
    requires Antichain(kept) && Covered(p, kept)
    ensures CoveredOnce(p, kept)
  {
    var k :| 0 <= k < |kept| && kept[k] <= p;
    forall j | 0 <= j < |kept| && kept[j] <= p ensures j == k {
      SharedDescendant(kept[j], kept[k], p);
    }
  }

  /** Two ancestors of one path lie on one line. */
  lemma SharedDescendant(a: Path, b: Path, p: Path)
    requires a <= p && b <= p
    ensures a <= b || b <= a
  {
    assert a == p[..|a|] && b == p[..|b|];
  }

  predicate Ascending(paths: seq<Path>) {
    forall i, j :: 0 <= i < j < |paths| ==> |paths[i]| <= |paths[j]|
  }

  /** The loop, on candidates visited shortest first. */
  method PruneAscending(candidates: seq<Path>) returns (pruned: seq<Path>)
    requires Ascending(candidates)
    ensures Antichain(pruned)
    ensures forall k :: 0 <= k < |pruned| ==> pruned[k] in candidates
    ensures forall k :: 0 <= k < |candidates| ==> Covered(candidates[k], pruned)
  {
    hide Covered, Antichain;
    pruned := [];
    NothingKept();
    for i := 0 to |candidates|
      invariant Antichain(pruned)
      invariant forall k :: 0 <= k < |pruned| ==> pruned[k] in candidates[..i]
      invariant forall k :: 0 <= k < i ==> Covered(candidates[k], pruned)
    {
      var candidate := candidates[i];
      var covered := IsCovered(candidate, pruned);
      assert candidates[..i + 1] == candidates[..i] + [candidate];
      if !covered {
        KeepOne(pruned, candidate);
        forall k | 0 <= k < i ensures Covered(candidates[k], pruned + [candidate]) {
          MoreCover(candidates[k], pruned, candidate);
        }
        CoversItself(pruned, candidate);
        pruned := pruned + [candidate];
      }
    }
  }

  lemma NothingKept()
    ensures Antichain([])
  {
  }

  lemma CoversItself(kept: seq<Path>, candidate: Path)
    ensures Covered(candidate, kept + [candidate])
  {
    assert (kept + [candidate])[|kept|] <= candidate;
  }

  /** `_prune_duplicate_paths`. */
  method PruneDuplicatePaths(paths: seq<Path>, text: Path -> string) returns (pruned: seq<Path>)
    ensures Antichain(pruned)
    ensures forall k :: 0 <= k < |pruned| ==> pruned[k] in paths
    ensures forall k :: 0 <= k < |paths| ==> CoveredOnce(paths[k], pruned)
  {
    var unique := S.Sort(Unique(paths), Shorter(text));
    ShorterIsOrder(text);
    S.SortSorts(Unique(paths), Shorter(text));
    S.SortMembers(Unique(paths), Shorter(text));
    SortedAscends(unique, text);
    hide *;
    pruned := PruneAscending(unique);
    forall k | 0 <= k < |paths| ensures CoveredOnce(paths[k], pruned) {
      UniqueMembers(paths, paths[k]);
      assert paths[k] in unique;
      OnceInAntichain(paths[k], pruned);
    }
    forall k | 0 <= k < |pruned| ensures pruned[k] in paths {
      UniqueMembers(paths, pruned[k]);
    }
  }

  lemma SortedAscends(paths: seq<Path>, text: Path -> string)
    requires S.IsSorted(paths, Shorter(text))
    ensures Ascending(paths)
  {
    forall i, j | 0 <= i < j < |paths| ensures |paths[i]| <= |paths[j]| {
      assert Shorter(text)(paths[i], paths[j]);
    }
  }

  method IsCovered(candidate: Path, kept: seq<Path>) returns (covered: bool)
    ensures covered == Covered(candidate, kept)
  {
    for k := 0 to |kept|
      invariant forall j :: 0 <= j < k ==> !(kept[j] <= candidate)
    {
      if kept[k] <= candidate {
        return true;
      }
    }
    return false;
  }

  /** Shortest first: a new candidate is never above a path already kept. */
  lemma KeepOne(kept: seq<Path>, candidate: Path)
    requires Antichain(kept) && !Covered(candidate, kept)
    requires forall k :: 0 <= k < |kept| ==> |kept[k]| <= |candidate|
    ensures Antichain(kept + [candidate])
  {
    var next := kept + [candidate];
    forall i, j | 0 <= i < |next| && 0 <= j < |next| && i != j ensures !(next[i] <= next[j]) {
      if i == |kept| {
        NotAbove(candidate, kept[j]);
      }
    }
  }

  lemma NotAbove(longer: Path, shorter: Path)
    requires |shorter| <= |longer| && !(shorter <= longer)
    ensures !(longer <= shorter)
  {
  }

  lemma MoreCover(p: Path, kept: seq<Path>, candidate: Path)
    requires Covered(p, kept)
    ensures Covered(p, kept + [candidate])
  {
    var k :| 0 <= k < |kept| && kept[k] <= p;
    assert (kept + [candidate])[k] <= p;
  }
}

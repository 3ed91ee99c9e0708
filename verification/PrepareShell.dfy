// The ordered, resumable application of patches to the vendored repositories.
//
// A repository is read place by place (a place is what one hunk covers). A patch says what each place it touches
// held before and holds after; `git apply --check` compares, `git apply --index` rewrites working tree and index.
module PrepareShell {
  import opened Wrappers

  type Place = nat
  type Content = Option<string>
  type Tree = map<Place, string>

  datatype Change = Change(before: Content, after: Content)
  type Patch = map<Place, Change>

  /** Working tree and index. */
  datatype State = State(work: Tree, index: Tree)

  function At(t: Tree, x: Place): Content { if x in t then Some(t[x]) else None }

  /** `git apply --check --reverse` on the working tree. */
  predicate Stands(s: State, p: Patch) { forall x :: x in p ==> At(s.work, x) == p[x].after }

  /** `git apply --check --index`: also refuses a place whose index and working tree differ. */
  predicate Applies(s: State, p: Patch) {
    forall x :: x in p ==> At(s.work, x) == p[x].before && At(s.index, x) == p[x].before
  }

  function Rewritten(t: Tree, p: Patch, x: Place): Content { if x in p then p[x].after else At(t, x) }

  function Rewrite(t: Tree, p: Patch): Tree {
    map x | x in t.Keys + p.Keys && Rewritten(t, p, x).Some? :: Rewritten(t, p, x).value
  }

  function Apply(s: State, p: Patch): State { State(Rewrite(s.work, p), Rewrite(s.index, p)) }

  /** One repository's turn: whether it got through its patches, and the state it was left in. */
  function Prepared(s: State, ps: seq<Patch>): (bool, State)
    decreases |ps|
  {
    if ps == [] then (true, s)
    else if Stands(s, ps[0]) then Prepared(s, ps[1..])
    else if Applies(s, ps[0]) then Prepared(Apply(s, ps[0]), ps[1..])
    else (false, s)
  }

  lemma RewriteAt(t: Tree, p: Patch, x: Place)
    ensures At(Rewrite(t, p), x) == Rewritten(t, p, x)
  {}

  lemma ApplyMakesStand(s: State, p: Patch)
    ensures Stands(Apply(s, p), p)
  {
    forall x | x in p ensures At(Apply(s, p).work, x) == p[x].after { RewriteAt(s.work, p, x); }
  }

  // ---- patches that agree where they meet ----

  ghost predicate AgreeWith(p: Patch, q: Patch) { forall x :: x in p && x in q ==> p[x].after == q[x].after }

  ghost predicate Agree(ps: seq<Patch>) { forall i, j :: 0 <= i < j < |ps| ==> AgreeWith(ps[i], ps[j]) }

  lemma AgreeRest(ps: seq<Patch>)
    requires ps != [] && Agree(ps)
    ensures Agree(ps[1..]) && forall j :: 0 <= j < |ps[1..]| ==> AgreeWith(ps[0], ps[1..][j])
  {
    forall j | 0 <= j < |ps[1..]| ensures AgreeWith(ps[0], ps[1..][j]) { assert ps[1..][j] == ps[j + 1]; }
    forall i, j | 0 <= i < j < |ps[1..]| ensures AgreeWith(ps[1..][i], ps[1..][j]) {
      assert ps[1..][i] == ps[i + 1] && ps[1..][j] == ps[j + 1];
    }
  }

  lemma ApplyKeepsStanding(s: State, p: Patch, q: Patch)
    requires Stands(s, q) && AgreeWith(p, q)
    ensures Stands(Apply(s, p), q)
  {
    forall x | x in q ensures At(Apply(s, p).work, x) == q[x].after { RewriteAt(s.work, p, x); }
  }

  /** A place that no patch touches, or whose patch already stood, is never rewritten. */
  lemma {:induction false} ElsewhereUntouched(s: State, ps: seq<Patch>, x: Place)
    requires forall j :: 0 <= j < |ps| ==> x !in ps[j] || Stands(s, ps[j])
    requires Agree(ps)
    ensures At(Prepared(s, ps).1.work, x) == At(s.work, x) && At(Prepared(s, ps).1.index, x) == At(s.index, x)
    decreases |ps|
  {
    if ps != [] {
      var rest := ps[1..];
      AgreeRest(ps);
      if Stands(s, ps[0]) {
        ElsewhereUntouched(s, rest, x);
      } else if Applies(s, ps[0]) {
        var t := Apply(s, ps[0]);
        RewriteAt(s.work, ps[0], x);
        RewriteAt(s.index, ps[0], x);
        forall j | 0 <= j < |rest| ensures x !in rest[j] || Stands(t, rest[j]) {
          assert rest[j] == ps[j + 1];
          if Stands(s, rest[j]) { ApplyKeepsStanding(s, ps[0], rest[j]); }
        }
        ElsewhereUntouched(t, rest, x);
      }
    }
  }

  /** Once a patch stands, patches that agree with it leave it standing. */
  lemma {:induction false} StaysStanding(s: State, p: Patch, ps: seq<Patch>)
    requires Stands(s, p) && forall j :: 0 <= j < |ps| ==> AgreeWith(ps[j], p)
    ensures Stands(Prepared(s, ps).1, p)
    decreases |ps|
  {
    if ps != [] {
      var rest := ps[1..];
      forall j | 0 <= j < |rest| ensures AgreeWith(rest[j], p) { assert rest[j] == ps[j + 1]; }
      if Stands(s, ps[0]) {
        StaysStanding(s, p, rest);
      } else if Applies(s, ps[0]) {
        ApplyKeepsStanding(s, ps[0], p);
        StaysStanding(Apply(s, ps[0]), p, rest);
      }
    }
  }

  ghost predicate AllStand(s: State, ps: seq<Patch>) { forall i :: 0 <= i < |ps| ==> Stands(s, ps[i]) }

  lemma {:induction false} AgreeingStand(s: State, ps: seq<Patch>)
    requires Agree(ps) && Prepared(s, ps).0
    ensures AllStand(Prepared(s, ps).1, ps)
    decreases |ps|
  {
    if ps != [] {
      AgreeRest(ps);
      var t := if Stands(s, ps[0]) then s else Apply(s, ps[0]);
      ApplyMakesStand(s, ps[0]);
      AgreeingStand(t, ps[1..]);
      forall j | 0 <= j < |ps[1..]| ensures AgreeWith(ps[1..][j], ps[0]) { assert AgreeWith(ps[0], ps[1..][j]); }
      StaysStanding(t, ps[0], ps[1..]);
      forall i | 0 <= i < |ps| ensures Stands(Prepared(s, ps).1, ps[i]) {
        if i > 0 { var k := i - 1; assert ps[i] == ps[1..][k]; }
      }
    }
  }

  /**
   * Having got through, the reverse-apply probe recognises every patch as applied exactly when the patches agree on
   * what each place they share comes to hold.
   */
  lemma {:induction false} ProbeRecognisesExactly(s: State, ps: seq<Patch>)
    requires Prepared(s, ps).0
    ensures AllStand(Prepared(s, ps).1, ps) <==> Agree(ps)
  {
    var t := Prepared(s, ps).1;
    if Agree(ps) { AgreeingStand(s, ps); }
    if AllStand(t, ps) {
      forall i, j | 0 <= i < j < |ps| ensures AgreeWith(ps[i], ps[j]) {
        assert Stands(t, ps[i]) && Stands(t, ps[j]);
      }
    }
  }

  lemma {:induction false} StandingIsSkipped(s: State, ps: seq<Patch>)
    requires AllStand(s, ps)
    ensures Prepared(s, ps) == (true, s)
    decreases |ps|
  {
    if ps != [] {
      forall i | 0 <= i < |ps[1..]| ensures Stands(s, ps[1..][i]) { assert ps[1..][i] == ps[i + 1]; }
      StandingIsSkipped(s, ps[1..]);
    }
  }

  /** Then running it again skips every patch and changes nothing. */
  lemma {:induction false} PreparingIsIdempotent(s: State, ps: seq<Patch>)
    requires Agree(ps) && Prepared(s, ps).0
    ensures Prepared(Prepared(s, ps).1, ps) == (true, Prepared(s, ps).1)
  {
    ProbeRecognisesExactly(s, ps);
    StandingIsSkipped(Prepared(s, ps).1, ps);
  }

  /** Working tree and index agree at a place. */
  predicate Clean(s: State, x: Place) { At(s.work, x) == At(s.index, x) }

  lemma ApplyKeepsClean(s: State, p: Patch, x: Place)
    requires Clean(s, x) || x in p
    ensures Clean(Apply(s, p), x)
  {
    RewriteAt(s.work, p, x);
    RewriteAt(s.index, p, x);
  }

  /** Whether it gets through or is refused half way, preparation leaves no place with working tree and index at odds
      that was not so before. */
  lemma {:induction false} CleanStaysClean(s: State, ps: seq<Patch>, x: Place)
    requires Clean(s, x)
    ensures Clean(Prepared(s, ps).1, x)
    decreases |ps|
  {
    if ps != [] {
      if Stands(s, ps[0]) {
        CleanStaysClean(s, ps[1..], x);
      } else if Applies(s, ps[0]) {
        ApplyKeepsClean(s, ps[0], x);
        CleanStaysClean(Apply(s, ps[0]), ps[1..], x);
      }
    }
  }

  // ---- patches that touch different places ----

  ghost predicate Disjoint(ps: seq<Patch>) {
    forall i, j, x :: 0 <= i < j < |ps| && x in ps[i] ==> x !in ps[j]
  }

  lemma ApplyIsApart(s: State, p: Patch, q: Patch)
    requires forall x :: x in p ==> x !in q
    ensures Stands(Apply(s, p), q) == Stands(s, q) && Applies(Apply(s, p), q) == Applies(s, q)
  {
    forall x | x in q ensures At(Apply(s, p).work, x) == At(s.work, x) && At(Apply(s, p).index, x) == At(s.index, x) {
      RewriteAt(s.work, p, x);
      RewriteAt(s.index, p, x);
    }
  }

  /** Each patch, read against the starting state, is there already or can be applied. */
  ghost predicate Ready(s: State, ps: seq<Patch>) {
    forall i :: 0 <= i < |ps| ==> Stands(s, ps[i]) || Applies(s, ps[i])
  }

  lemma ReadyAfter(s: State, ps: seq<Patch>)
    requires ps != [] && Disjoint(ps)
    ensures Ready(Apply(s, ps[0]), ps[1..]) == Ready(s, ps[1..])
  {
    forall i | 0 <= i < |ps[1..]| ensures
      Stands(Apply(s, ps[0]), ps[1..][i]) == Stands(s, ps[1..][i]) && Applies(Apply(s, ps[0]), ps[1..][i]) == Applies(s, ps[1..][i])
    {
      assert ps[1..][i] == ps[i + 1];
      ApplyIsApart(s, ps[0], ps[1..][i]);
    }
  }

  lemma ReadySplits(s: State, ps: seq<Patch>)
    requires ps != []
    ensures Ready(s, ps) <==> (Stands(s, ps[0]) || Applies(s, ps[0])) && Ready(s, ps[1..])
  {
    if Ready(s, ps) {
      forall i | 0 <= i < |ps[1..]| ensures Stands(s, ps[1..][i]) || Applies(s, ps[1..][i]) { assert ps[1..][i] == ps[i + 1]; }
    }
    if (Stands(s, ps[0]) || Applies(s, ps[0])) && Ready(s, ps[1..]) {
      forall i | 0 <= i < |ps| ensures Stands(s, ps[i]) || Applies(s, ps[i]) {
        if i > 0 { var k := i - 1; assert ps[i] == ps[1..][k]; }
      }
    }
  }

  lemma DisjointRest(ps: seq<Patch>)
    requires ps != [] && Disjoint(ps)
    ensures Disjoint(ps[1..])
  {
    forall i, j, x | 0 <= i < j < |ps[1..]| && x in ps[1..][i] ensures x !in ps[1..][j] {
      assert ps[1..][i] == ps[i + 1] && ps[1..][j] == ps[j + 1];
    }
  }

  /** Which of them were applied before does not matter: preparation gets through exactly when each patch is already
      there or applies to the tree as found, and is refused when one neither applies nor reverse-applies. */
  lemma {:induction false} PreparesExactly(s: State, ps: seq<Patch>)
    requires Disjoint(ps)
    ensures Prepared(s, ps).0 <==> Ready(s, ps)
    decreases |ps|
  {
    if ps != [] {
      DisjointRest(ps);
      ReadySplits(s, ps);
      if Stands(s, ps[0]) {
        PreparesExactly(s, ps[1..]);
      } else if Applies(s, ps[0]) {
        ReadyAfter(s, ps);
        PreparesExactly(Apply(s, ps[0]), ps[1..]);
      }
    }
  }

  /** A patch that is not there yet and touches a place where index and working tree differ is refused. */
  lemma {:induction false} DirtyIsRefused(s: State, ps: seq<Patch>, i: nat, x: Place)
    requires Disjoint(ps) && i < |ps| && x in ps[i] && !Clean(s, x) && !Stands(s, ps[i])
    ensures !Prepared(s, ps).0
  {
    PreparesExactly(s, ps);
    assert !Applies(s, ps[i]);
  }

  // ---- patches that do not agree ----

  /** A patch changes every place it covers, and covers some. */
  predicate Genuine(p: Patch) { p != map[] && forall x :: x in p ==> p[x].before != p[x].after }

  predicate Undoes(q: Patch, p: Patch) { q.Keys == p.Keys && forall x :: x in p ==> q[x].after == p[x].before }

  lemma AppliedIsNotStanding(s: State, p: Patch)
    requires Genuine(p) && Applies(s, p)
    ensures !Stands(s, p)
  {
    var x :| x in p;
    assert At(s.work, x) == p[x].before;
  }

  lemma {:induction false} PreparedPair(s: State, p: Patch, q: Patch)
    ensures Prepared(s, [p, q]) ==
      if Stands(s, p) then Prepared(s, [q]) else if Applies(s, p) then Prepared(Apply(s, p), [q]) else (false, s)
    ensures Prepared(s, [q]) == if Stands(s, q) then (true, s) else if Applies(s, q) then (true, Apply(s, q)) else (false, s)
  {
    assert [p, q][1..] == [q] && [q][1..] == [];
    assert Prepared(Apply(s, q), []) == (true, Apply(s, q));
  }

  lemma ApplyAt(s: State, p: Patch, x: Place)
    ensures At(Apply(s, p).work, x) == Rewritten(s.work, p, x) && At(Apply(s, p).index, x) == Rewritten(s.index, p, x)
  {
    RewriteAt(s.work, p, x);
    RewriteAt(s.index, p, x);
  }

  /** Where the first patch stands and the second is applied over it and undoes it, both can be applied again. */
  lemma UndoneIsRepeated(u: State, p: Patch, q: Patch)
    requires Genuine(p) && Stands(u, p) && Applies(u, q) && Undoes(q, p)
    ensures Prepared(Apply(u, q), [p, q]).0
  {
    var t := Apply(u, q);
    forall x | x in p ensures At(t.work, x) == p[x].before && At(t.index, x) == p[x].before { ApplyAt(u, q, x); }
    AppliedIsNotStanding(t, p);
    forall x | x in q ensures At(Apply(t, p).work, x) == q[x].before && At(Apply(t, p).index, x) == q[x].before {
      ApplyAt(t, p, x);
      assert At(u.work, x) == p[x].after;
    }
    PreparedPair(t, p, q);
    PreparedPair(Apply(t, p), p, q);
  }

  /** Neither agreeing nor undoing: the first patch no longer stands, and one of the two no longer applies. */
  lemma StackedIsRefused(u: State, p: Patch, q: Patch)
    requires Genuine(p) && Genuine(q) && Stands(u, p) && Applies(u, q)
    requires !AgreeWith(p, q) && !Undoes(q, p)
    ensures !Prepared(Apply(u, q), [p, q]).0
  {
    var t := Apply(u, q);
    PreparedPair(t, p, q);
    var x :| x in p && x in q && p[x].after != q[x].after;
    ApplyAt(u, q, x);
    if Applies(t, p) {
      PreparedPair(Apply(t, p), p, q);
      var z := BeyondTheFirst(u, p, q);
      ApplyAt(u, q, z);
      ApplyAt(t, p, z);
      ApplyAt(t, p, x);
    }
  }

  /** If the first patch applies over the second, the second covers all of it, and more unless it undoes it. */
  lemma BeyondTheFirst(u: State, p: Patch, q: Patch) returns (z: Place)
    requires Genuine(p) && Stands(u, p) && Applies(Apply(u, q), p) && !Undoes(q, p)
    ensures z in q && z !in p
  {
    forall y | y in p ensures y in q && q[y].after == p[y].before { ApplyAt(u, q, y); }
    z :| z in q && z !in p;
  }

  /** The same from a tree on which the first patch stands and the second has been applied. */
  lemma RerunFrom(u: State, p: Patch, q: Patch)
    requires Genuine(p) && Genuine(q) && Stands(u, p) && Applies(u, q)
    ensures Prepared(Apply(u, q), [p, q]).0 <==> AgreeWith(p, q) || Undoes(q, p)
  {
    var t := Apply(u, q);
    if AgreeWith(p, q) {
      ApplyMakesStand(u, q);
      ApplyKeepsStanding(u, q, p);
      PreparedPair(t, p, q);
    } else if Undoes(q, p) {
      UndoneIsRepeated(u, p, q);
    } else {
      StackedIsRefused(u, p, q);
    }
  }

  /**
   * Two patches to one repository, in order, whatever of them stood in the tree to begin with: having got through,
   * preparation gets through a second time exactly when they agree where they meet, or the second undoes the first.
   * Otherwise the probe does not see the first patch under the second, and it is refused.
   */
  lemma {:induction false} StackedPatchesRerunExactly(s: State, p: Patch, q: Patch)
    requires Genuine(p) && Genuine(q) && Prepared(s, [p, q]).0
    ensures Prepared(Prepared(s, [p, q]).1, [p, q]).0 <==> AgreeWith(p, q) || Undoes(q, p)
  {
    var u := if Stands(s, p) then s else Apply(s, p);
    ApplyMakesStand(s, p);
    PreparedPair(s, p, q);
    PreparedPair(u, p, q);
    if Stands(u, q) {
      assert forall x :: x in p && x in q ==> p[x].after == At(u.work, x) == q[x].after;
    } else {
      RerunFrom(u, p, q);
    }
  }

  /** A pair that is refused exists: one line rewritten twice. */
  lemma StackedPatchesExist()
    ensures exists s, p, q :: Prepared(s, [p, q]).0 && !Prepared(Prepared(s, [p, q]).1, [p, q]).0
  {
    var s := State(map[0 := "a"], map[0 := "a"]);
    var p: Patch := map[0 := Change(Some("a"), Some("b"))];
    var q: Patch := map[0 := Change(Some("b"), Some("c"))];
    ApplyAt(s, p, 0);
    assert "a"[0] != "b"[0] && "b"[0] != "c"[0] && "a"[0] != "c"[0];
    assert 0 in p && 0 in q && !AgreeWith(p, q) && !Undoes(q, p);
    PreparedPair(s, p, q);
    PreparedPair(Apply(s, p), p, q);
    StackedPatchesRerunExactly(s, p, q);
  }

  // ---- the loop ----

  class Repository {
    var work: Tree
    var index: Tree
    var untracked: bool

    constructor (s: State, untracked: bool)
      ensures Tables() == s && this.untracked == untracked
    {
      work, index := s.work, s.index;
      this.untracked := untracked;
    }

    ghost function Tables(): State
      reads this
    {
      State(work, index)
    }

    /** `git apply --index` after a clean check. */
    method ApplyIndex(p: Patch)
      requires Applies(Tables(), p)
      modifies `work, `index
      ensures Tables() == Apply(old(Tables()), p)
    {
      work, index := Rewrite(work, p), Rewrite(index, p);
    }
  }

  lemma {:induction false} NextPatch(s: State, ps: seq<Patch>, i: nat)
    requires i < |ps|
    ensures Prepared(s, ps[i..]) ==
      if Stands(s, ps[i]) then Prepared(s, ps[i + 1..])
      else if Applies(s, ps[i]) then Prepared(Apply(s, ps[i]), ps[i + 1..])
      else (false, s)
  {
    assert ps[i..][0] == ps[i] && ps[i..][1..] == ps[i + 1..];
  }

  /** The body of the loop over repositories; false is the RuntimeError. */
  method PrepareOne(repo: Repository, ps: seq<Patch>) returns (ok: bool)
    modifies repo`work, repo`index
    ensures (ok, repo.Tables())
      == if old(repo.untracked) then (false, old(repo.Tables())) else Prepared(old(repo.Tables()), ps)
  {
    if repo.untracked { return false; }
    var i := 0;
    while i < |ps|
      invariant 0 <= i <= |ps|
      invariant Prepared(repo.Tables(), ps[i..]) == Prepared(old(repo.Tables()), ps)
    {
      NextPatch(repo.Tables(), ps, i);
      if !Stands(State(repo.work, repo.index), ps[i]) {
        if !Applies(State(repo.work, repo.index), ps[i]) { return false; }
        repo.ApplyIndex(ps[i]);
      }
      i := i + 1;
    }
    ok := true;
  }

  /** `prepare(root)`: the repositories in order; a refusal leaves the later ones as they were. */
  method Prepare(repos: seq<Repository>, patches: seq<seq<Patch>>) returns (done: nat)
    requires |patches| == |repos| && forall i, j :: 0 <= i < j < |repos| ==> repos[i] != repos[j]
    modifies repos
    ensures done <= |repos|
    ensures forall i :: 0 <= i < done ==>
      !repos[i].untracked && Prepared(old(repos[i].Tables()), patches[i]) == (true, repos[i].Tables())
    ensures done < |repos| ==>
      repos[done].untracked || Prepared(old(repos[done].Tables()), patches[done]) == (false, repos[done].Tables())
    ensures forall i :: done < i < |repos| ==> repos[i].Tables() == old(repos[i].Tables())
    ensures forall i :: 0 <= i < |repos| ==> repos[i].untracked == old(repos[i].untracked)
  {
    done := 0;
    while done < |repos|
      invariant 0 <= done <= |repos|
      invariant forall i :: 0 <= i < done ==>
        !repos[i].untracked && Prepared(old(repos[i].Tables()), patches[i]) == (true, repos[i].Tables())
      invariant forall i :: done <= i < |repos| ==> repos[i].Tables() == old(repos[i].Tables())
      invariant forall i :: 0 <= i < |repos| ==> repos[i].untracked == old(repos[i].untracked)
    {
      var ok := PrepareOne(repos[done], patches[done]);
      if !ok { return; }
      done := done + 1;
    }
  }
}

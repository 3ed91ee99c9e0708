// The fault proxy's one-shot register: `next_mode`, written and taken under one lock.
module FaultRegister {
  datatype Mode = Normal | UnavailableOnce | TimeoutOnce | DropAfterOnce

  predicate BeforeUpstream(m: Mode) { m.UnavailableOnce? || m.TimeoutOnce? }

  predicate Known(name: string) { name in {"normal", "unavailable_once", "timeout_once", "drop_after_once"} }

  function Named(name: string): Mode {
    if name == "unavailable_once" then UnavailableOnce
    else if name == "timeout_once" then TimeoutOnce
    else if name == "drop_after_once" then DropAfterOnce
    else Normal
  }

  /** `mode, next_mode = next_mode, "normal"` */
  function Take(register: Mode): (Mode, Mode) { (register, Normal) }

  /** A POST reaching the proxy: on the control path, on a commit path, or on any other. */
  datatype Post = SetMode(name: string) | CommitPath | OtherPath

  /** The mode the request is handled under, and the register it leaves. */
  function Serve(register: Mode, p: Post): (Mode, Mode) {
    match p
    case SetMode(name) => (Normal, if Known(name) then Named(name) else register)
    case CommitPath => Take(register)
    case OtherPath => (Normal, register)
  }

  /** The requests take the lock one after another; this is the register after all of them. */
  function Left(posts: seq<Post>): Mode {
    if posts == [] then Normal else Serve(Left(posts[..|posts| - 1]), posts[|posts| - 1]).1
  }

  function Seen(posts: seq<Post>, i: nat): Mode
    requires i < |posts|
  {
    Serve(Left(posts[..i]), posts[i]).0
  }

  predicate Arms(p: Post) { p.SetMode? && Known(p.name) }

  /** `j` is the arming request the post at `i` meets: the last one before it, with no commit in between. */
  ghost predicate Meets(posts: seq<Post>, j: int, i: nat)
    requires i <= |posts|
  {
    0 <= j < i && Arms(posts[j]) && forall k :: j < k < i ==> !Arms(posts[k]) && !posts[k].CommitPath?
  }

  lemma {:induction false} LeftIsTheLastArm(posts: seq<Post>, i: nat)
    requires i <= |posts|
    ensures forall j :: Meets(posts, j, i) ==> Left(posts[..i]) == Named(posts[j].name)
    ensures (forall j :: !Meets(posts, j, i)) ==> Left(posts[..i]) == Normal
  {
    if i > 0 {
      LeftIsTheLastArm(posts, i - 1);
      assert posts[..i][..i - 1] == posts[..i - 1];
      forall j | Meets(posts, j, i) ensures Left(posts[..i]) == Named(posts[j].name) {
        assert j == i - 1 || Meets(posts, j, i - 1);
      }
      if forall j :: !Meets(posts, j, i) {
        assert !Arms(posts[i - 1]) by { assert !Meets(posts, i - 1, i); }
        if !posts[i - 1].CommitPath? {
          var k := i - 1;
          forall j ensures !Meets(posts, j, k) { assert !Meets(posts, j, i); }
        }
      }
    }
  }

  /** In every order the lock admits: a commit is faulted exactly when a fault was armed since the last commit,
      with the fault armed last; no other request is faulted; and one arming never strikes twice. */
  lemma OneShot(posts: seq<Post>, i: nat, j: nat)
    requires i < |posts|
    ensures Seen(posts, i) != Normal ==> posts[i].CommitPath? && exists a :: Meets(posts, a, i) && Seen(posts, i) == Named(posts[a].name)
    ensures posts[i].CommitPath? ==> forall a :: Meets(posts, a, i) ==> Seen(posts, i) == Named(posts[a].name)
    ensures i < j < |posts| && posts[i].CommitPath? ==> forall a :: !(Meets(posts, a, i) && Meets(posts, a, j))
  {
    LeftIsTheLastArm(posts, i);
  }

  class Register {
    var nextMode: Mode

    constructor ()
      ensures nextMode == Normal
    {
      nextMode := Normal;
    }

    /** `do_POST`: the answer to a control request (204 or 400), or the mode a forwarded request runs under. */
    method DoPost(p: Post) returns (mode: Mode, status: int)
      modifies this
      ensures (mode, nextMode) == Serve(old(nextMode), p)
      ensures p.SetMode? ==>
        match p.name
        case "normal" => status == 204 && nextMode == Normal
        case "unavailable_once" => status == 204 && nextMode == UnavailableOnce
        case "timeout_once" => status == 204 && nextMode == TimeoutOnce
        case "drop_after_once" => status == 204 && nextMode == DropAfterOnce
        case _ => status == 400 && nextMode == old(nextMode)
    {
      mode, status := Normal, 0;
      if p.SetMode? {
        if !Known(p.name) { return Normal, 400; }
        nextMode := Named(p.name);
        return Normal, 204;
      }
      if p.CommitPath? {
        mode, nextMode := nextMode, Normal;
      }
    }
  }
}

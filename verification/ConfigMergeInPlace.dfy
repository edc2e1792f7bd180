/** The merge as it runs: on mutable maps, in place, handing maps of the defaults over to the user's
    settings by reference and then merging such a map into itself. */
module ConfigMergeInPlace {
  import opened Collections
  import opened ConfigMerge

  datatype Value = VNull | VLeaf(atom: Atom) | VDict(s: Section)

  class Section {
    var m: map<string, Value>

    constructor ()
      ensures m == map[]
    {
      m := map[];
    }
  }

  /** A finite tree of sections in memory. */
  datatype Shape = Plain(v: Value) | Node(s: Section, kids: map<string, Shape>)

  ghost function Sections(sh: Shape): set<Section> {
    match sh
    case Plain(_) => {}
    case Node(s, kids) => {s} + set k, x | k in kids && x in Sections(kids[k]) :: x
  }

  lemma KidSections(sh: Shape, k: string)
    requires sh.Node? && k in sh.kids
    ensures sh.s in Sections(sh) && Sections(sh.kids[k]) <= Sections(sh)
  {}

  /** `v` has the shape `sh` in memory. */
  ghost predicate Built(v: Value, sh: Shape)
    reads Sections(sh)
    decreases sh
  {
    match sh
    case Plain(p) => v == p && !v.VDict?
    case Node(s, kids) => v == VDict(s) && s.m.Keys == kids.Keys && forall k <- kids :: Built(s.m[k], kids[k])
  }

  function TreeOf(sh: Shape): Tree
    decreases sh, 1
  {
    match sh
    case Plain(VLeaf(a)) => Leaf(a)
    case Plain(_) => Null
    case Node(_, _) => Dict(FieldsOf(sh))
  }

  function FieldsOf(sh: Shape): map<string, Tree>
    requires sh.Node?
    decreases sh, 0
  {
    map k | k in sh.kids :: TreeOf(sh.kids[k])
  }

  /** No section occurs twice. */
  ghost predicate Unshared(sh: Shape)
    decreases sh
  {
    sh.Node? ==>
      && (forall k <- sh.kids :: sh.s !in Sections(sh.kids[k]) && Unshared(sh.kids[k]))
      && (forall k, l :: k in sh.kids && l in sh.kids && k != l ==> Sections(sh.kids[k]) !! Sections(sh.kids[l]))
  }

  type Snapshot = map<Section, map<string, Value>>

  ghost function Snap(F: set<Section>): Snapshot
    reads F
  {
    map s | s in F :: s.m
  }

  /** `v` had the shape `sh` when the snapshot was taken. */
  ghost predicate WasBuilt(h: Snapshot, v: Value, sh: Shape)
    decreases sh
  {
    match sh
    case Plain(p) => v == p && !v.VDict?
    case Node(s, kids) =>
      v == VDict(s) && s in h && h[s].Keys == kids.Keys && forall k <- kids :: WasBuilt(h, h[s][k], kids[k])
  }

  /** While its sections are as in the snapshot, what was built is what is built. */
  lemma {:induction false} BuiltAgrees(h: Snapshot, v: Value, sh: Shape)
    requires forall s <- Sections(sh) :: s in h && s.m == h[s]
    ensures Built(v, sh) <==> WasBuilt(h, v, sh)
    decreases sh
  {
    if sh.Node? && sh.s.m.Keys == sh.kids.Keys {
      forall k | k in sh.kids
        ensures Built(sh.s.m[k], sh.kids[k]) <==> WasBuilt(h, h[sh.s][k], sh.kids[k])
      {
        BuiltAgrees(h, sh.s.m[k], sh.kids[k]);
      }
    }
  }

  /** The user's sections under the key `k`. */
  ghost function Part(dsh: Shape, k: string): set<Section> {
    if dsh.Node? && k in dsh.kids then Sections(dsh.kids[k]) else {}
  }

  lemma PartApart(dsh: Shape, k: string, l: string)
    requires Unshared(dsh) && dsh.Node?
    ensures Part(dsh, k) <= Sections(dsh) && dsh.s in Sections(dsh) && dsh.s !in Part(dsh, k)
    ensures k in dsh.kids ==> Unshared(dsh.kids[k])
    ensures k != l ==> Part(dsh, k) !! Part(dsh, l)
  {}

  /** Each key is made of the user's sections for that key and of sections of the defaults. */
  ghost predicate Placed(kids: map<string, Shape>, dsh: Shape, ssh: Shape) {
    dsh.Node? && forall k <- kids :: Sections(kids[k]) <= Part(dsh, k) + Sections(ssh)
  }

  ghost predicate BuiltKids(m: map<string, Value>, kids: map<string, Shape>)
    reads set k, x | k in kids && x in Sections(kids[k]) :: x
  {
    m.Keys == kids.Keys && forall k <- kids :: Built(m[k], kids[k])
  }

  lemma BuiltKidsPut(m: map<string, Value>, kids: map<string, Shape>, k: string, v: Value, kid: Shape)
    requires BuiltKids(m - {k}, kids - {k}) && Built(v, kid)
    ensures BuiltKids(m[k := v], kids[k := kid])
  {
    var m', kids' := m[k := v], kids[k := kid];
    assert m'.Keys == (m - {k}).Keys + {k} && kids'.Keys == (kids - {k}).Keys + {k};
    forall l | l in kids'
      ensures Built(m'[l], kids'[l])
    {
      assert l != k ==> l in kids - {k} && Built((m - {k})[l], (kids - {k})[l]);
    }
  }

  lemma BuiltKidsLess(m: map<string, Value>, kids: map<string, Shape>, k: string)
    requires BuiltKids(m, kids)
    ensures BuiltKids(m - {k}, kids - {k}) && (k in m <==> k in kids)
    ensures k in kids ==> Built(m[k], kids[k])
  {}

  ghost predicate WereBuiltKids(h: Snapshot, m: map<string, Value>, kids: map<string, Shape>) {
    m.Keys == kids.Keys && forall k <- kids :: WasBuilt(h, m[k], kids[k])
  }

  lemma KidsAgree(h: Snapshot, m: map<string, Value>, kids: map<string, Shape>)
    requires forall k <- kids :: forall s <- Sections(kids[k]) :: s in h && s.m == h[s]
    ensures BuiltKids(m, kids) <==> WereBuiltKids(h, m, kids)
  {
    hide Built, WasBuilt, Sections;
    forall k | k in kids && k in m
      ensures Built(m[k], kids[k]) <==> WasBuilt(h, m[k], kids[k])
    {
      BuiltAgrees(h, m[k], kids[k]);
    }
  }

  /** The shape keeps clear of the user's sections under `k`, and of the section being completed. */
  ghost predicate Clear(sh: Shape, dsh: Shape, ssh: Shape, k: string) {
    dsh.Node? && forall x <- Sections(sh) :: x in Sections(dsh) + Sections(ssh) && x !in Part(dsh, k) && x != dsh.s
  }

  /** No other key reaches a section of the user's under `k`. */
  lemma OthersApart(kids: map<string, Shape>, dsh: Shape, ssh: Shape, k: string)
    requires Placed(kids, dsh, ssh) && Unshared(dsh) && Sections(dsh) !! Sections(ssh)
    ensures forall l :: l in kids && l != k ==> Clear(kids[l], dsh, ssh, k)
  {
    hide Sections, Unshared, Part;
    forall l | l in kids && l != k
      ensures Clear(kids[l], dsh, ssh, k)
    {
      PartApart(dsh, k, l);
      PartApart(dsh, l, k);
    }
  }

  function TreeAt(kids: map<string, Shape>, k: string): Option<Tree> {
    if k in kids then Some(TreeOf(kids[k])) else None
  }

  /** Shapes that read key by key as the merge read as the merge. */
  lemma FieldsOfMerge(rsh: Shape, dsh: Shape, ssh: Shape)
    requires rsh.Node? && dsh.Node? && ssh.Node?
    requires forall k :: TreeAt(rsh.kids, k) == MergeSlot(TreeAt(dsh.kids, k), TreeAt(ssh.kids, k))
    ensures FieldsOf(rsh) == Merge(FieldsOf(dsh), FieldsOf(ssh))
  {
    hide Merge, MergeSlot, TreeOf;
    forall k
      ensures Get(FieldsOf(rsh), k) == Get(Merge(FieldsOf(dsh), FieldsOf(ssh)), k)
    {
      MergeByKey(FieldsOf(dsh), FieldsOf(ssh), k);
      assert Get(FieldsOf(rsh), k) == TreeAt(rsh.kids, k);
      assert Get(FieldsOf(dsh), k) == TreeAt(dsh.kids, k);
      assert Get(FieldsOf(ssh), k) == TreeAt(ssh.kids, k);
    }
    SameByKey(FieldsOf(rsh), Merge(FieldsOf(dsh), FieldsOf(ssh)));
  }

  // ---- Reading the sections in memory ----

  /** What there is at the end of a path from `v`, through the sections as they are in the snapshot. */
  ghost function KindIn(h: Snapshot, v: Value, path: seq<string>): Kind
    decreases |path|
  {
    if path == [] then match v { case VNull => IsNull case VLeaf(a) => IsLeaf(a) case VDict(_) => IsDict }
    else if v.VDict? && v.s in h && path[0] in h[v.s] then KindIn(h, h[v.s][path[0]], path[1..])
    else Absent
  }

  /** Going down the path one comes to a missing or a null setting. */
  ghost predicate OpenIn(h: Snapshot, v: Value, path: seq<string>)
    decreases |path|
  {
    match v
    case VNull => true
    case VLeaf(_) => false
    case VDict(s) => path != [] && (s in h && path[0] in h[s] ==> OpenIn(h, h[s][path[0]], path[1..]))
  }

  /** The tree of a shape holds at every path what is there in memory. */
  lemma {:induction false} BuiltKind(h: Snapshot, v: Value, sh: Shape, path: seq<string>)
    requires WasBuilt(h, v, sh)
    ensures KindIn(h, v, path) == KindAt(TreeOf(sh), path)
    ensures OpenIn(h, v, path) <==> Open(TreeOf(sh), path)
    decreases |path|
  {
    if path != [] && sh.Node? && path[0] in sh.kids {
      BuiltKind(h, h[sh.s][path[0]], sh.kids[path[0]], path[1..]);
    }
  }

  /** In memory: at every path there is what the defaults held there, if anything, where the user's settings left the
      path open, and what the user's settings held otherwise. */
  ghost predicate Completed(now: Snapshot, user: Snapshot, defaults: Snapshot, dst: Section, src: Section) {
    forall path ::
      KindIn(now, VDict(dst), path) ==
      if OpenIn(user, VDict(dst), path) && KindIn(defaults, VDict(src), path) != Absent
      then KindIn(defaults, VDict(src), path)
      else KindIn(user, VDict(dst), path)
  }

  lemma MergeCompletes(now: Snapshot, user: Snapshot, defaults: Snapshot, dst: Section, src: Section,
                       rsh: Shape, dsh: Shape, ssh: Shape)
    requires rsh.Node? && dsh.Node? && ssh.Node? && FieldsOf(rsh) == Merge(FieldsOf(dsh), FieldsOf(ssh))
    requires WasBuilt(now, VDict(dst), rsh) && WasBuilt(user, VDict(dst), dsh) && WasBuilt(defaults, VDict(src), ssh)
    ensures Completed(now, user, defaults, dst, src)
  {
    hide Merge, WasBuilt, KindAt, KindIn, Open, OpenIn;
    forall path
      ensures KindIn(now, VDict(dst), path) ==
              if OpenIn(user, VDict(dst), path) && KindIn(defaults, VDict(src), path) != Absent
              then KindIn(defaults, VDict(src), path)
              else KindIn(user, VDict(dst), path)
    {
      BuiltKind(now, VDict(dst), rsh, path);
      BuiltKind(user, VDict(dst), dsh, path);
      BuiltKind(defaults, VDict(src), ssh, path);
      MergedKind(FieldsOf(dsh), FieldsOf(ssh), path);
    }
  }

  /** Completes `dst` from `src` in place and returns it. The two are either the same map or share no
      section; the sections of `src` are handed over by reference, and keep their content. */
  method MergeConfig(dst: Section, src: Section, ghost dsh: Shape, ghost ssh: Shape)
    returns (r: Section, ghost rsh: Shape)
    requires dsh.Node? && ssh.Node? && Built(VDict(dst), dsh) && Built(VDict(src), ssh)
    requires (dst == src && dsh == ssh) || (Unshared(dsh) && Sections(dsh) !! Sections(ssh))
    modifies Sections(dsh) + Sections(ssh)
    ensures r == dst && rsh.Node? && Built(VDict(dst), rsh) && Sections(rsh) <= Sections(dsh) + Sections(ssh)
    ensures Snap(Sections(ssh)) == old(Snap(Sections(ssh)))
    ensures FieldsOf(rsh) == Merge(FieldsOf(dsh), FieldsOf(ssh))
    ensures Completed(Snap(Sections(rsh)), old(Snap(Sections(dsh))), old(Snap(Sections(ssh))), dst, src)
    decreases ssh, 2
  {
    hide Completed, Merge;
    ghost var user, defaults := Snap(Sections(dsh)), Snap(Sections(ssh));
    BuiltAgrees(user, VDict(dst), dsh);
    BuiltAgrees(defaults, VDict(src), ssh);
    if dst == src {
      MergeIntoItself(dst, ssh);
      SelfMerge(FieldsOf(ssh));
      r, rsh := dst, ssh;
    } else {
      rsh := MergeDistinct(dst, src, dsh, ssh);
      r := dst;
    }
    BuiltAgrees(Snap(Sections(rsh)), VDict(dst), rsh);
    MergeCompletes(Snap(Sections(rsh)), user, defaults, dst, src, rsh, dsh, ssh);
  }

  /** The merge when the two sides share no section. */
  method MergeDistinct(dst: Section, src: Section, ghost dsh: Shape, ghost ssh: Shape) returns (ghost rsh: Shape)
    requires dsh.Node? && ssh.Node? && Built(VDict(dst), dsh) && Built(VDict(src), ssh)
    requires Unshared(dsh) && Sections(dsh) !! Sections(ssh)
    modifies Sections(dsh) + Sections(ssh)
    ensures rsh.Node? && Built(VDict(dst), rsh) && Sections(rsh) <= Sections(dsh) + Sections(ssh)
    ensures Snap(Sections(ssh)) == old(Snap(Sections(ssh)))
    ensures FieldsOf(rsh) == Merge(FieldsOf(dsh), FieldsOf(ssh))
    decreases ssh, 1
  {
    hide Sections, Unshared, Built, Placed, BuiltKids, MergeSlot, TreeOf;
    ghost var kids := dsh.kids;
    Starting(dst, src, dsh, ssh);
    var todo := src.m.Keys;
    while todo != {}
      invariant todo <= ssh.kids.Keys && Built(VDict(src), ssh)
      invariant BuiltKids(dst.m, kids) && Placed(kids, dsh, ssh)
      invariant Snap(Sections(ssh)) == old(Snap(Sections(ssh)))
      invariant forall k :: TreeAt(kids, k) == if k in todo then TreeAt(dsh.kids, k)
                                               else MergeSlot(TreeAt(dsh.kids, k), TreeAt(ssh.kids, k))
      invariant forall k <- todo :: Get(kids, k) == Get(dsh.kids, k)
      decreases todo
    {
      var k :| k in todo;
      todo := todo - {k};
      ghost var kid := MergeKey(dst, src, k, kids, dsh, ssh);
      kids := kids[k := kid];
    }
    rsh := Node(dst, kids);
    Finishing(dst, kids, dsh, ssh);
    FieldsOfMerge(rsh, dsh, ssh);
  }

  lemma Starting(dst: Section, src: Section, dsh: Shape, ssh: Shape)
    requires dsh.Node? && ssh.Node? && Built(VDict(dst), dsh) && Built(VDict(src), ssh)
    ensures BuiltKids(dst.m, dsh.kids) && Placed(dsh.kids, dsh, ssh) && src.m.Keys == ssh.kids.Keys && dsh.s == dst
    ensures forall k :: k !in ssh.kids ==> MergeSlot(TreeAt(dsh.kids, k), TreeAt(ssh.kids, k)) == TreeAt(dsh.kids, k)
  {}

  lemma Finishing(dst: Section, kids: map<string, Shape>, dsh: Shape, ssh: Shape)
    requires BuiltKids(dst.m, kids) && Placed(kids, dsh, ssh) && dsh.s == dst && Unshared(dsh)
    ensures Built(VDict(dst), Node(dst, kids)) && Sections(Node(dst, kids)) <= Sections(dsh) + Sections(ssh)
  {
    hide Unshared, Part;
    forall k | k in kids
      ensures Sections(kids[k]) <= Sections(dsh) + Sections(ssh)
    {
      PartApart(dsh, k, k);
    }
  }

  /** The merge of a map into itself: it ends, and every section keeps its content. */
  method MergeIntoItself(s: Section, ghost sh: Shape)
    requires sh.Node? && Built(VDict(s), sh)
    modifies Sections(sh)
    ensures Built(VDict(s), sh) && Snap(Sections(sh)) == old(Snap(Sections(sh)))
    decreases sh, 1
  {
    hide Sections;
    var todo := s.m.Keys;
    while todo != {}
      invariant todo <= sh.kids.Keys && Built(VDict(s), sh)
      invariant Snap(Sections(sh)) == old(Snap(Sections(sh)))
      decreases todo
    {
      var k :| k in todo;
      todo := todo - {k};
      SameKey(s, k, sh);
    }
  }

  /** One key of the merge of a map into itself. */
  method SameKey(s: Section, k: string, ghost sh: Shape)
    requires sh.Node? && Built(VDict(s), sh) && k in sh.kids
    modifies Sections(sh)
    ensures Built(VDict(s), sh) && Snap(Sections(sh)) == old(Snap(Sections(sh)))
    decreases sh, 0
  {
    hide Sections;
    ghost var h, kid := Snap(Sections(sh)), sh.kids[k];
    KidSections(sh, k);
    BuiltAgrees(h, VDict(s), sh);
    var v := s.m[k];
    if s.m[k].VNull? {
      s.m := s.m[k := v];
    }
    if s.m[k].VDict? {
      BuiltAgrees(h, v, kid);
      ghost var hk := Snap(Sections(kid));
      var r;
      ghost var rsh;
      r, rsh := MergeConfig(s.m[k].s, v.s, kid, kid);
      assert forall x <- Sections(kid) :: x.m == hk[x] by {
        assert Snap(Sections(kid)) == hk;
      }
      s.m := s.m[k := VDict(r)];
    }
    assert forall x <- Sections(sh) :: x.m == h[x];
    BuiltAgrees(h, VDict(s), sh);
  }

  /** One key of the merge: a missing or null setting is taken over, then dictionaries are merged. */
  method MergeKey(dst: Section, src: Section, k: string, ghost kids: map<string, Shape>, ghost dsh: Shape,
                  ghost ssh: Shape)
    returns (ghost kid: Shape)
    requires dsh.Node? && dsh.s == dst && ssh.Node? && Built(VDict(src), ssh) && k in ssh.kids
    requires BuiltKids(dst.m, kids) && Placed(kids, dsh, ssh) && Unshared(dsh) && Sections(dsh) !! Sections(ssh)
    requires Get(kids, k) == Get(dsh.kids, k)
    modifies Sections(dsh) + Sections(ssh)
    ensures BuiltKids(dst.m, kids[k := kid]) && Placed(kids[k := kid], dsh, ssh) && Built(VDict(src), ssh)
    ensures Snap(Sections(ssh)) == old(Snap(Sections(ssh)))
    ensures Some(TreeOf(kid)) == MergeSlot(TreeAt(dsh.kids, k), TreeAt(ssh.kids, k))
    ensures k in old(src.m) && dst.m ==
            old(dst.m)[k := if k in old(dst.m) && !old(dst.m)[k].VNull? then old(dst.m)[k] else old(src.m)[k]]
    decreases ssh, 0
  {
    hide Sections, Unshared, BuiltKids, Placed, Clear, WereBuiltKids, WasBuilt, Built, TreeOf, FieldsOf, Merge,
      MergeSlot;
    ghost var F := Sections(dsh) + Sections(ssh);
    ghost var h, was := Snap(F), dst.m;
    KeyBefore(h, dst, src, k, kids, dsh, ssh);
    var v := src.m[k];
    if k !in dst.m || dst.m[k].VNull? {
      dst.m := dst.m[k := v];
      kid := ssh.kids[k];
    } else {
      kid := kids[k];
    }
    BuiltAgrees(h, dst.m[k], kid);
    BuiltAgrees(h, v, ssh.kids[k]);
    KindsAgree(dst.m[k], kid, v, ssh.kids[k]);
    ghost var start := kid;
    if dst.m[k].VDict? && v.VDict? {
      ghost var hs := Snap(Sections(ssh.kids[k]));
      kid := MergeUnder(dst, v, k, kid, ssh.kids[k]);
      assert forall x <- Sections(ssh.kids[k]) :: x.m == hs[x] by {
        assert Snap(Sections(ssh.kids[k])) == hs;
      }
    }
    KeyTree(k, start, kid, dsh, ssh);
    assert forall x <- F :: x !in Part(dsh, k) && x != dst ==> x.m == h[x];
    KeyAfter(h, was, dst, src, k, kids, kid, dsh, ssh);
  }

  /** The merge of the dictionary under the key `k` with the dictionary `v`. */
  method MergeUnder(dst: Section, v: Value, k: string, ghost sh: Shape, ghost vsh: Shape) returns (ghost kid: Shape)
    requires k in dst.m && dst.m[k].VDict? && v.VDict? && sh.Node? && vsh.Node?
    requires Built(dst.m[k], sh) && Built(v, vsh) && dst !in Sections(sh) + Sections(vsh)
    requires (dst.m[k] == v && sh == vsh) || (Unshared(sh) && Sections(sh) !! Sections(vsh))
    modifies dst, Sections(sh) + Sections(vsh)
    ensures dst.m == old(dst.m) && kid.Node? && Built(dst.m[k], kid) && Sections(kid) <= Sections(sh) + Sections(vsh)
    ensures Snap(Sections(vsh)) == old(Snap(Sections(vsh)))
    ensures FieldsOf(kid) == Merge(FieldsOf(sh), FieldsOf(vsh))
    decreases vsh, 3
  {
    hide Sections, Unshared, Built, FieldsOf, Merge;
    var r;
    r, kid := MergeConfig(dst.m[k].s, v.s, sh, vsh);
    dst.m := dst.m[k := VDict(r)];
  }

  /** What the key reads as after its step, from what was there or was taken over. */
  lemma KeyTree(k: string, start: Shape, kid: Shape, dsh: Shape, ssh: Shape)
    requires dsh.Node? && ssh.Node? && k in ssh.kids
    requires if k in dsh.kids && !TreeOf(dsh.kids[k]).Null? then start == dsh.kids[k] else start == ssh.kids[k]
    requires if start.Node? && ssh.kids[k].Node?
             then kid.Node? && FieldsOf(kid) == Merge(FieldsOf(start), FieldsOf(ssh.kids[k]))
             else kid == start
    ensures Some(TreeOf(kid)) == MergeSlot(TreeAt(dsh.kids, k), TreeAt(ssh.kids, k))
  {
    if start == ssh.kids[k] && start.Node? {
      SelfMerge(FieldsOf(start));
    }
  }

  /** What is known when the loop comes to the key `k`. */
  lemma KeyBefore(h: Snapshot, dst: Section, src: Section, k: string, kids: map<string, Shape>, dsh: Shape, ssh: Shape)
    requires dsh.Node? && dsh.s == dst && ssh.Node? && Built(VDict(src), ssh) && k in ssh.kids
    requires BuiltKids(dst.m, kids) && Placed(kids, dsh, ssh) && Unshared(dsh) && Sections(dsh) !! Sections(ssh)
    requires Get(kids, k) == Get(dsh.kids, k) && h == Snap(Sections(dsh) + Sections(ssh))
    ensures dst in Sections(dsh) && src in Sections(ssh) && Part(dsh, k) <= Sections(dsh) && dst !in Part(dsh, k)
    ensures k in src.m && WasBuilt(h, src.m[k], ssh.kids[k]) && Sections(ssh.kids[k]) <= Sections(ssh)
    ensures (k in dst.m <==> k in kids) && (k in kids <==> k in dsh.kids)
    ensures k in kids ==> kids[k] == dsh.kids[k] && (dst.m[k].VNull? <==> TreeOf(kids[k]).Null?)
    ensures k in kids ==> WasBuilt(h, dst.m[k], kids[k]) && Sections(kids[k]) == Part(dsh, k) && Unshared(kids[k])
    ensures WereBuiltKids(h, dst.m - {k}, kids - {k}) && WasBuilt(h, VDict(src), ssh)
  {
    hide Unshared, WasBuilt, WereBuiltKids, Placed, Sections, TreeOf, BuiltKids;
    SourceFacts(src, k, ssh);
    PartApart(dsh, k, k);
    BuiltKidsLess(dst.m, kids, k);
    BuiltAgrees(h, VDict(src), ssh);
    BuiltAgrees(h, src.m[k], ssh.kids[k]);
    if k in kids {
      KindsAgree(dst.m[k], kids[k], src.m[k], ssh.kids[k]);
      BuiltAgrees(h, dst.m[k], kids[k]);
    }
    OthersApart(kids, dsh, ssh, k);
    KidsAgree(h, dst.m - {k}, kids - {k});
  }

  lemma SourceFacts(src: Section, k: string, ssh: Shape)
    requires ssh.Node? && Built(VDict(src), ssh) && k in ssh.kids
    ensures src in Sections(ssh) && Sections(ssh.kids[k]) <= Sections(ssh)
    ensures k in src.m && Built(src.m[k], ssh.kids[k])
  {
    KidSections(ssh, k);
  }

  /** Only what the user holds under `k` has changed: the shapes of all keys are as stated. */
  lemma KeyAfter(h: Snapshot, was: map<string, Value>, dst: Section, src: Section, k: string,
                 kids: map<string, Shape>, kid: Shape, dsh: Shape, ssh: Shape)
    requires dsh.Node? && dsh.s == dst && ssh.Node? && Placed(kids, dsh, ssh) && Unshared(dsh)
    requires Sections(dsh) !! Sections(ssh)
    requires WereBuiltKids(h, was - {k}, kids - {k}) && WasBuilt(h, VDict(src), ssh)
    requires h.Keys == Sections(dsh) + Sections(ssh)
    requires forall x <- Sections(dsh) + Sections(ssh) :: x !in Part(dsh, k) && x != dst ==> x.m == h[x]
    requires k in dst.m && dst.m - {k} == was - {k} && Built(dst.m[k], kid)
    requires Sections(kid) <= Part(dsh, k) + Sections(ssh)
    ensures BuiltKids(dst.m, kids[k := kid]) && Placed(kids[k := kid], dsh, ssh) && Built(VDict(src), ssh)
    ensures Snap(Sections(ssh)) == map x | x in Sections(ssh) :: h[x]
  {
    hide Unshared, WasBuilt, Built, Sections, WereBuiltKids;
    OthersApart(kids, dsh, ssh, k);
    PartApart(dsh, k, k);
    BuiltAgrees(h, VDict(src), ssh);
    KidsAgree(h, dst.m - {k}, kids - {k});
    BuiltKidsPut(dst.m, kids, k, dst.m[k], kid);
    assert dst.m[k := dst.m[k]] == dst.m;
  }

  /** A value and its shape are of one kind. */
  lemma KindsAgree(v: Value, sh: Shape, w: Value, th: Shape)
    requires Built(v, sh) && Built(w, th)
    ensures v.VDict? <==> sh.Node?
    ensures w.VDict? <==> th.Node?
    ensures v.VNull? <==> TreeOf(sh).Null?
    ensures w.VNull? <==> TreeOf(th).Null?
  {}
}

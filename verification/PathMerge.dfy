/** Merging settings into an existing config file (`setup.rs`): a dotted path is set on a tree, and a plan sets a
  list of them.  JSON objects and TOML tables are both `Object`; the two setters of the source are the same walk. */
module PathMerge {
  import opened Options

  datatype Tree =
    | Null
    | Bool(b: bool)
    | Number(n: real)
    | String(s: string)
    | Array(items: seq<Tree>)
    | Object(fields: map<string, Tree>)

  type Path = seq<string>

  /** `Err(i)`: what the first `i` segments lead to is not an object. */
  datatype Outcome = Ok(root: Tree) | Err(at: nat)

  const EMPTY: Tree := Object(map[])

  // --- Setting one path -------------------------------------------------------------------

  function ChildOf(t: Tree, segment: string): Tree
    requires t.Object?
  {
    if segment in t.fields then t.fields[segment] else EMPTY
  }

  function Set(t: Tree, path: Path, value: Tree): Outcome
    decreases |path|
  {
    if path == [] then Ok(t)
    else if !t.Object? then Err(0)
    else if |path| == 1 then Ok(Object(t.fields[path[0] := value]))
    else
      match Set(ChildOf(t, path[0]), path[1..], value)
      case Ok(child) => Ok(Object(t.fields[path[0] := child]))
      case Err(i) => Err(i + 1)
  }

  /** The whole tree around a cursor: `spine[i]` is the object the cursor left through `path[i]`. */
  function Plug(spine: seq<map<string, Tree>>, path: Path, cursor: Tree): Tree
    requires |spine| == |path|
  {
    if spine == [] then cursor
    else
      var n := |spine| - 1;
      Plug(spine[..n], path[..n], Object(spine[n][path[n] := cursor]))
  }

  /** The walk of the source: a cursor moves down, inserting missing objects as it goes.  `after` is the tree the
    caller's root has become; a failing walk leaves it as it was. */
  method SetPath(root: Tree, path: Path, value: Tree) returns (after: Tree, outcome: Outcome)
    ensures outcome == Set(root, path, value)
    ensures after == if outcome.Ok? then outcome.root else root
  {
    var cursor := root;
    var spine: seq<map<string, Tree>> := [];
    for i := 0 to |path|
      invariant |spine| == i
      invariant match Set(cursor, path[i..], value)
                case Ok(t) => Set(root, path, value) == Ok(Plug(spine, path[..i], t))
                case Err(j) => Set(root, path, value) == Err(i + j) && Plug(spine, path[..i], cursor) == root
      invariant i == |path| ==> path == []
    {
      if !cursor.Object? {
        return Plug(spine, path[..i], cursor), Err(i);
      }
      assert path[i..][1..] == path[i + 1..];
      if i + 1 == |path| {
        after := Plug(spine, path[..i], Object(cursor.fields[path[i] := value]));
        return after, Ok(after);
      }
      if path[i] !in cursor.fields {
        NeverFailsOnEmpty(path[i + 1..], value);
      }
      ghost var parent := cursor;
      spine := spine + [cursor.fields];
      cursor := ChildOf(cursor, path[i]);
      assert path[..i + 1][..i] == path[..i] && spine[..i] == spine[..|spine| - 1];
      assert path[i] in parent.fields ==> Object(parent.fields[path[i] := cursor]) == parent;
    }
    return root, Ok(root);
  }

  lemma {:induction false} NeverFailsOnEmpty(path: Path, value: Tree)
    ensures Set(EMPTY, path, value).Ok?
  {
    if |path| > 1 {
      NeverFailsOnEmpty(path[1..], value);
    }
  }

  // --- What setting a path means ------------------------------------------------------------------

  function Get(t: Tree, path: Path): Option<Tree> {
    if path == [] then Some(t)
    else if t.Object? && path[0] in t.fields then Get(t.fields[path[0]], path[1..])
    else None
  }

  predicate HoldsNonObject(t: Tree, path: Path) {
    var found := Get(t, path);
    found.Some? && !found.value.Object?
  }

  /** Setting fails exactly when a proper prefix of the path holds something that is not an object, and reports
    the shortest such prefix. */
  lemma {:induction false} FailsIffBlocked(t: Tree, path: Path, value: Tree)
    ensures Set(t, path, value).Err? <==> exists i | 0 <= i < |path| :: HoldsNonObject(t, path[..i])
    ensures Set(t, path, value).Err? ==>
              var at := Set(t, path, value).at;
              at < |path| && HoldsNonObject(t, path[..at])
              && forall i | 0 <= i < at :: !HoldsNonObject(t, path[..i])
    decreases |path|
  {
    if path != [] {
      assert path[..0] == [];
      if t.Object? && |path| > 1 {
        var child := ChildOf(t, path[0]);
        FailsIffBlocked(child, path[1..], value);
        forall i | 1 <= i < |path|
          ensures HoldsNonObject(t, path[..i]) <==> HoldsNonObject(child, path[1..][..i - 1])
        {
          assert path[..i][1..] == path[1..][..i - 1];
          if path[0] !in t.fields && i > 1 {
            assert Get(EMPTY, path[1..][..i - 1]) == None;
          }
        }
        if exists j | 0 <= j < |path[1..]| :: HoldsNonObject(child, path[1..][..j]) {
          var j :| 0 <= j < |path[1..]| && HoldsNonObject(child, path[1..][..j]);
          assert HoldsNonObject(t, path[..j + 1]);
        }
        if exists i | 0 <= i < |path| :: HoldsNonObject(t, path[..i]) {
          var i :| 0 <= i < |path| && HoldsNonObject(t, path[..i]);
          assert HoldsNonObject(child, path[1..][..i - 1]);
        }
      }
    }
  }

  /** Neither path leads through the other. */
  predicate Incomparable(p: Path, q: Path) {
    !(p <= q) && !(q <= p)
  }

  lemma Deeper(p: Path, q: Path)
    requires p != [] && q != [] && p[0] == q[0]
    ensures p <= q <==> p[1..] <= q[1..]
    ensures p == q <==> p[1..] == q[1..]
  {
  }

  /** Main result: reading the path back gives the value, below it what the value holds there, and every path not
    comparable with it reads as before. */
  lemma {:induction false} SetThenGet(t: Tree, path: Path, value: Tree, q: Path)
    requires path != [] && Set(t, path, value).Ok?
    ensures var t' := Set(t, path, value).root;
            && t'.Object?
            && (path <= q ==> Get(t', q) == Get(value, q[|path|..]))
            && (Incomparable(path, q) ==> Get(t', q) == Get(t, q))
    decreases |path|
  {
    if q != [] && q[0] == path[0] {
      Deeper(path, q);
      if |path| > 1 {
        SetThenGet(ChildOf(t, path[0]), path[1..], value, q[1..]);
        assert path <= q ==> q[1..][|path[1..]|..] == q[|path|..];
      }
    }
  }

  // --- Setting several paths --------------------------------------------------------------------------

  /** Setting a path again forgets the first value. */
  lemma {:induction false} SetAgain(t: Tree, path: Path, v: Tree, w: Tree)
    requires path != [] && Set(t, path, v).Ok?
    ensures Set(Set(t, path, v).root, path, w) == Set(t, path, w)
    decreases |path|
  {
    var t' := Set(t, path, v).root;
    if |path| == 1 {
      assert t'.fields[path[0] := w] == t.fields[path[0] := w];
    } else {
      var child := ChildOf(t, path[0]);
      SetAgain(child, path[1..], v, w);
      assert ChildOf(t', path[0]) == Set(child, path[1..], v).root;
      if Set(child, path[1..], w).Ok? {
        var c := Set(child, path[1..], w).root;
        assert t'.fields[path[0] := c] == t.fields[path[0] := c];
      }
    }
  }

  lemma SetsPartAtRoot(t: Tree, p: Path, v: Tree, q: Path, w: Tree)
    requires p != [] && q != [] && p[0] != q[0]
    requires Set(t, p, v).Ok? && Set(t, q, w).Ok?
    ensures Set(Set(t, p, v).root, q, w).Ok?
    ensures Set(Set(t, p, v).root, q, w) == Set(Set(t, q, w).root, p, v)
  {
    var a, b := Set(t, p, v).root, Set(t, q, w).root;
    assert ChildOf(a, q[0]) == ChildOf(t, q[0]) && ChildOf(b, p[0]) == ChildOf(t, p[0]);
    var cp := if |p| == 1 then v else Set(ChildOf(t, p[0]), p[1..], v).root;
    var cq := if |q| == 1 then w else Set(ChildOf(t, q[0]), q[1..], w).root;
    assert t.fields[p[0] := cp][q[0] := cq] == t.fields[q[0] := cq][p[0] := cp];
  }

  /** Two settings below one child are two settings of that child. */
  lemma SetTwiceBelow(t: Tree, p: Path, v: Tree, q: Path, w: Tree)
    requires |p| > 1 && |q| > 1 && p[0] == q[0]
    requires Set(t, p, v).Ok? && Set(Set(ChildOf(t, p[0]), p[1..], v).root, q[1..], w).Ok?
    ensures Set(Set(t, p, v).root, q, w)
            == Ok(Object(t.fields[p[0] := Set(Set(ChildOf(t, p[0]), p[1..], v).root, q[1..], w).root]))
  {
    var child := Set(ChildOf(t, p[0]), p[1..], v).root;
    var a, c := Set(t, p, v).root, Set(child, q[1..], w).root;
    assert ChildOf(a, q[0]) == child;
    assert a.fields[p[0] := c] == t.fields[p[0] := c];
  }

  /** Incomparable paths can be set in either order. */
  lemma {:induction false} SetsCommute(t: Tree, p: Path, v: Tree, q: Path, w: Tree)
    requires p != [] && q != [] && Incomparable(p, q)
    requires Set(t, p, v).Ok? && Set(t, q, w).Ok?
    ensures Set(Set(t, p, v).root, q, w).Ok?
    ensures Set(Set(t, p, v).root, q, w) == Set(Set(t, q, w).root, p, v)
    decreases |p|
  {
    if p[0] == q[0] {
      Deeper(p, q);
      Deeper(q, p);
      var child := ChildOf(t, p[0]);
      SetsCommute(child, p[1..], v, q[1..], w);
      SetTwiceBelow(t, p, v, q, w);
      SetTwiceBelow(t, q, w, p, v);
    } else {
      SetsPartAtRoot(t, p, v, q, w);
    }
  }

  /** A setting whose value has been rendered. */
  datatype Field = Field(path: Path, value: string, requiresApiKeyEnv: bool)

  /** `split('.')` gives at least one segment. */
  ghost predicate ValidFields(fs: seq<Field>) {
    forall i | 0 <= i < |fs| :: fs[i].path != []
  }

  function SetField(t: Tree, f: Field): Outcome {
    Set(t, f.path, String(f.value))
  }

  function SetAll(t: Tree, fs: seq<Field>): Outcome
    decreases fs
  {
    if fs == [] then Ok(t)
    else
      var first := SetField(t, fs[0]);
      if first.Err? then first else SetAll(first.root, fs[1..])
  }

  function Applicable(fs: seq<Field>, haveApiKeyEnv: bool): seq<Field> {
    if fs == [] then []
    else
      Applicable(fs[..|fs| - 1], haveApiKeyEnv)
      + if fs[|fs| - 1].requiresApiKeyEnv && !haveApiKeyEnv then [] else [fs[|fs| - 1]]
  }

  function Skipped(fs: seq<Field>, haveApiKeyEnv: bool): seq<Path> {
    if fs == [] then []
    else
      Skipped(fs[..|fs| - 1], haveApiKeyEnv)
      + if fs[|fs| - 1].requiresApiKeyEnv && !haveApiKeyEnv then [fs[|fs| - 1].path] else []
  }

  lemma {:induction false} SetAllConcat(t: Tree, fs: seq<Field>, gs: seq<Field>)
    ensures SetAll(t, fs + gs) == if SetAll(t, fs).Err? then SetAll(t, fs) else SetAll(SetAll(t, fs).root, gs)
    decreases fs
  {
    if fs == [] {
      assert fs + gs == gs;
    } else {
      assert (fs + gs)[1..] == fs[1..] + gs;
      if SetField(t, fs[0]).Ok? {
        SetAllConcat(SetField(t, fs[0]).root, fs[1..], gs);
      }
    }
  }

  /** The two loops of `build_plan` on a parsed file (or the empty object, when there is none). */
  method BuildPlan(fields: seq<Field>, haveApiKeyEnv: bool, existing: Option<Tree>)
    returns (skipped: seq<Path>, outcome: Outcome)
    ensures outcome == SetAll(if existing.Some? then existing.value else EMPTY, Applicable(fields, haveApiKeyEnv))
    ensures skipped == Skipped(fields, haveApiKeyEnv)
  {
    skipped := [];
    var applicable: seq<Field> := [];
    for i := 0 to |fields|
      invariant applicable == Applicable(fields[..i], haveApiKeyEnv)
      invariant skipped == Skipped(fields[..i], haveApiKeyEnv)
    {
      assert fields[..i + 1][..i] == fields[..i];
      if fields[i].requiresApiKeyEnv && !haveApiKeyEnv {
        skipped := skipped + [fields[i].path];
      } else {
        applicable := applicable + [fields[i]];
      }
    }
    assert fields[..|fields|] == fields;
    var start := if existing.Some? then existing.value else EMPTY;
    var root := start;
    for i := 0 to |applicable|
      invariant SetAll(start, applicable[..i]) == Ok(root)
    {
      var field := applicable[i];
      var done;
      ghost var before := root;
      SetAllConcat(start, applicable[..i], [field]);
      assert applicable[..i] + [field] == applicable[..i + 1];
      root, done := SetPath(root, field.path, String(field.value));
      if done.Err? {
        SetAllConcat(start, applicable[..i + 1], applicable[i + 1..]);
        assert applicable[..i + 1] + applicable[i + 1..] == applicable;
        return skipped, done;
      }
    }
    assert applicable[..|applicable|] == applicable;
    return skipped, Ok(root);
  }

  // --- Applying a plan twice -----------------------------------------------------------------------------

  /** Some prefix of the path holds a value that is not an object. */
  ghost predicate Blocked(t: Tree, path: Path) {
    exists i | 0 <= i <= |path| :: HoldsNonObject(t, path[..i])
  }

  lemma BlockedAt(t: Tree, path: Path, i: nat)
    requires i <= |path| && HoldsNonObject(t, path[..i])
    ensures Blocked(t, path)
  {
  }

  lemma NotThrough(t: Tree, path: Path, f: Field)
    requires HoldsNonObject(t, path) && SetField(t, f).Ok?
    ensures !(path < f.path)
  {
    if path < f.path {
      assert f.path[..|path|] == path;
      FailsIffBlocked(t, f.path, String(f.value));
    }
  }

  /** Setting strings never clears the way again. */
  lemma BlockedStays(t: Tree, path: Path, f: Field)
    requires f.path != [] && Blocked(t, path) && SetField(t, f).Ok?
    ensures Blocked(SetField(t, f).root, path)
  {
    var t' := SetField(t, f).root;
    var i :| 0 <= i <= |path| && HoldsNonObject(t, path[..i]);
    SetThenGet(t, f.path, String(f.value), path[..i]);
    if f.path <= path[..i] {
      SetThenGet(t, f.path, String(f.value), f.path);
      assert path[..i][..|f.path|] == f.path == path[..|f.path|];
      assert f.path[|f.path|..] == [];
      BlockedAt(t', path, |f.path|);
    } else {
      NotThrough(t, path[..i], f);
      BlockedAt(t', path, i);
    }
  }

  lemma SetBlocks(t: Tree, f: Field)
    requires f.path != [] && SetField(t, f).Ok?
    ensures Blocked(SetField(t, f).root, f.path)
  {
    SetThenGet(t, f.path, String(f.value), f.path);
    assert f.path[|f.path|..] == [] && f.path[..|f.path|] == f.path;
    BlockedAt(SetField(t, f).root, f.path, |f.path|);
  }

  lemma BlockedFails(t: Tree, path: Path, f: Field)
    requires Blocked(t, path) && path < f.path
    ensures SetField(t, f).Err?
  {
    var i :| 0 <= i <= |path| && HoldsNonObject(t, path[..i]);
    assert f.path[..i] == path[..i];
    FailsIffBlocked(t, f.path, String(f.value));
  }

  lemma {:induction false} BlockedRun(t: Tree, path: Path, fs: seq<Field>)
    requires ValidFields(fs) && Blocked(t, path) && SetAll(t, fs).Ok?
    ensures Blocked(SetAll(t, fs).root, path)
    ensures forall i | 0 <= i < |fs| :: !(path < fs[i].path)
    decreases fs
  {
    if fs != [] {
      if path < fs[0].path {
        BlockedFails(t, path, fs[0]);
      }
      BlockedStays(t, path, fs[0]);
      BlockedRun(SetField(t, fs[0]).root, path, fs[1..]);
    }
  }

  lemma {:induction false} RunBlocks(t: Tree, fs: seq<Field>, i: nat)
    requires ValidFields(fs) && i < |fs| && SetAll(t, fs).Ok?
    ensures Blocked(SetAll(t, fs).root, fs[i].path)
    decreases fs
  {
    var t' := SetField(t, fs[0]).root;
    if i == 0 {
      SetBlocks(t, fs[0]);
      BlockedRun(t', fs[0].path, fs[1..]);
    } else {
      RunBlocks(t', fs[1..], i - 1);
    }
  }

  /** No field's path leads through another field's path. */
  ghost predicate NoProperPrefix(fs: seq<Field>) {
    forall i, j | 0 <= i < |fs| && 0 <= j < |fs| :: !(fs[i].path < fs[j].path)
  }

  /** Setting `f` before `gs` as well as after them makes no difference. */
  lemma {:induction false} EarlierSetIsForgotten(t: Tree, gs: seq<Field>, f: Field)
    requires ValidFields(gs) && f.path != []
    requires forall i | 0 <= i < |gs| :: !(gs[i].path < f.path) && !(f.path < gs[i].path)
    requires SetField(t, f).Ok? && SetAll(t, gs).Ok? && SetField(SetAll(t, gs).root, f).Ok?
    ensures SetAll(SetField(t, f).root, gs).Ok?
    ensures SetField(SetAll(SetField(t, f).root, gs).root, f) == SetField(SetAll(t, gs).root, f)
    decreases gs
  {
    if gs == [] {
      SetAgain(t, f.path, String(f.value), String(f.value));
    } else {
      var g := gs[0];
      if g.path == f.path {
        SetAgain(t, f.path, String(f.value), String(g.value));
      } else {
        SetsCommute(t, f.path, String(f.value), g.path, String(g.value));
        EarlierSetIsForgotten(SetField(t, g).root, gs[1..], f);
      }
    }
  }

  lemma {:induction false} AppliedAgain(t: Tree, fs: seq<Field>)
    requires ValidFields(fs) && NoProperPrefix(fs) && SetAll(t, fs).Ok?
    ensures SetAll(SetAll(t, fs).root, fs) == SetAll(t, fs)
  {
    if fs != [] {
      var gs, f := fs[..|fs| - 1], fs[|fs| - 1];
      assert fs == gs + [f];
      SetAllConcat(t, gs, [f]);
      AppliedAgain(t, gs);
      var t' := SetAll(t, gs).root;
      EarlierSetIsForgotten(t', gs, f);
      SetAllConcat(SetField(t', f).root, gs, [f]);
    }
  }

  /** Main result: after a plan has been applied, applying it again changes nothing exactly when no field's path is a
    proper prefix of another's.  With such a pair the second application fails. */
  lemma PlanIsIdempotentIff(t: Tree, fs: seq<Field>)
    requires ValidFields(fs) && SetAll(t, fs).Ok?
    ensures NoProperPrefix(fs) <==> SetAll(SetAll(t, fs).root, fs) == SetAll(t, fs)
    ensures !NoProperPrefix(fs) ==> SetAll(SetAll(t, fs).root, fs).Err?
  {
    if NoProperPrefix(fs) {
      AppliedAgain(t, fs);
    } else {
      var i, j :| 0 <= i < |fs| && 0 <= j < |fs| && fs[i].path < fs[j].path;
      RunBlocks(t, fs, i);
      var r := SetAll(t, fs).root;
      if SetAll(r, fs).Ok? {
        BlockedRun(r, fs[i].path, fs);
      }
    }
  }

  // --- What a plan does ----------------------------------------------------------------------------------

  lemma {:induction false} SkipsConcat(a: seq<Field>, b: seq<Field>, haveApiKeyEnv: bool)
    ensures Applicable(a + b, haveApiKeyEnv) == Applicable(a, haveApiKeyEnv) + Applicable(b, haveApiKeyEnv)
    ensures Skipped(a + b, haveApiKeyEnv) == Skipped(a, haveApiKeyEnv) + Skipped(b, haveApiKeyEnv)
  {
    if b == [] {
      assert a + b == a;
    } else {
      var n := |b| - 1;
      assert (a + b)[..|a + b| - 1] == a + b[..n];
      SkipsConcat(a, b[..n], haveApiKeyEnv);
    }
  }

  lemma {:induction false} MembersSplit(fs: seq<Field>, haveApiKeyEnv: bool, f: Field)
    ensures f in Applicable(fs, haveApiKeyEnv) <==> f in fs && (haveApiKeyEnv || !f.requiresApiKeyEnv)
    ensures |Applicable(fs, haveApiKeyEnv)| + |Skipped(fs, haveApiKeyEnv)| == |fs|
  {
    if fs != [] {
      var n := |fs| - 1;
      MembersSplit(fs[..n], haveApiKeyEnv, f);
      assert fs == fs[..n] + [fs[n]];
    }
  }

  lemma {:induction false} SkippedAre(fs: seq<Field>, haveApiKeyEnv: bool, p: Path)
    ensures p in Skipped(fs, haveApiKeyEnv)
            <==> !haveApiKeyEnv && exists f | f in fs :: f.requiresApiKeyEnv && f.path == p
  {
    if fs != [] {
      var n := |fs| - 1;
      SkippedAre(fs[..n], haveApiKeyEnv, p);
      assert fs == fs[..n] + [fs[n]];
    }
  }

  /** Just the fields that need an API key variable are skipped, and only when there is none; each field is set or
    skipped, in the order of the list. */
  lemma FieldsAreSetOrSkipped(a: seq<Field>, b: seq<Field>, haveApiKeyEnv: bool, f: Field, p: Path)
    ensures var fs := a + b;
            && (f in Applicable(fs, haveApiKeyEnv) <==> f in fs && (haveApiKeyEnv || !f.requiresApiKeyEnv))
            && (p in Skipped(fs, haveApiKeyEnv)
                <==> !haveApiKeyEnv && exists g | g in fs :: g.requiresApiKeyEnv && g.path == p)
            && |Applicable(fs, haveApiKeyEnv)| + |Skipped(fs, haveApiKeyEnv)| == |fs|
            && Applicable(fs, haveApiKeyEnv) == Applicable(a, haveApiKeyEnv) + Applicable(b, haveApiKeyEnv)
            && Skipped(fs, haveApiKeyEnv) == Skipped(a, haveApiKeyEnv) + Skipped(b, haveApiKeyEnv)
  {
    SkipsConcat(a, b, haveApiKeyEnv);
    MembersSplit(a + b, haveApiKeyEnv, f);
    SkippedAre(a + b, haveApiKeyEnv, p);
  }

  /** What no field of a plan is comparable with reads as before. */
  lemma {:induction false} PlanLeavesOthers(t: Tree, fs: seq<Field>, q: Path)
    requires ValidFields(fs) && SetAll(t, fs).Ok?
    requires forall i | 0 <= i < |fs| :: Incomparable(fs[i].path, q)
    ensures Get(SetAll(t, fs).root, q) == Get(t, q)
    decreases fs
  {
    if fs != [] {
      SetThenGet(t, fs[0].path, String(fs[0].value), q);
      PlanLeavesOthers(SetField(t, fs[0]).root, fs[1..], q);
    }
  }

  /** Main result: after a plan each of its paths reads as the rendered value of its field, unless a later field sets
    it again or leads through it; and what no field is comparable with reads as before. */
  lemma {:induction false} PlanSetsFields(t: Tree, fs: seq<Field>, i: nat)
    requires ValidFields(fs) && SetAll(t, fs).Ok? && i < |fs|
    requires forall j | i < j < |fs| :: Incomparable(fs[j].path, fs[i].path)
    ensures Get(SetAll(t, fs).root, fs[i].path) == Some(String(fs[i].value))
    ensures forall q | (forall j | 0 <= j < |fs| :: Incomparable(fs[j].path, q)) ::
              Get(SetAll(t, fs).root, q) == Get(t, q)
    decreases fs
  {
    var t' := SetField(t, fs[0]).root;
    if i == 0 {
      SetThenGet(t, fs[0].path, String(fs[0].value), fs[0].path);
      assert fs[0].path[|fs[0].path|..] == [];
      PlanLeavesOthers(t', fs[1..], fs[0].path);
    } else {
      PlanSetsFields(t', fs[1..], i - 1);
    }
    forall q | (forall j | 0 <= j < |fs| :: Incomparable(fs[j].path, q))
      ensures Get(SetAll(t, fs).root, q) == Get(t, q)
    {
      PlanLeavesOthers(t, fs, q);
    }
  }
}

/** store.py: moving long strings of a JSON tree to content-addressed storage and back, with an explicit
  stack of places and replacement in the containers. A place is the path of child positions from the root.
 */
module CasTree {
  import opened Results
  import opened Schema

  /** Digest, Stamp and HashText are strings too: the CAS digest of a text, an ISO time, and a hash. */
  datatype Json =
    | Null | Bool(truth: bool) | Int(value: int) | Real(number: real)
    | Str(text: string) | Digest(of: string) | Stamp(time: Time) | HashText(hash: Hash)
    | List(children: seq<Json>) | Dict(keys: seq<string>, children: seq<Json>)

  datatype CasError = MissingObject

  type Path = seq<nat>

  const CAS_REF := "__cas_ref__"
  const INLINE_LIMIT := 4096

  predicate IsNode(j: Json) {
    j.List? || j.Dict?
  }

  function WithChildren(j: Json, children: seq<Json>): Json
    requires IsNode(j)
  {
    if j.List? then List(children) else Dict(j.keys, children)
  }

  // ----- the rewrite, recursively -----

  /** What a traversal does with one value: go on into it, replace it and store some texts, or raise. */
  datatype Verdict = Keep | Replace(replacement: Json, stored: set<string>) | Fail

  type Rule = Json -> Verdict

  function Rewrite(j: Json, rule: Rule): Result<Json, CasError>
    decreases j
  {
    match rule(j)
    case Fail => Failure(MissingObject)
    case Replace(replacement, _) => Success(replacement)
    case Keep =>
      if IsNode(j) then
        var children :- RewriteAll(j.children, rule);
        Success(WithChildren(j, children))
      else Success(j)
  }

  function RewriteAll(js: seq<Json>, rule: Rule): (r: Result<seq<Json>, CasError>)
    ensures r.Success? ==> |r.value| == |js|
    decreases js
  {
    if js == [] then Success([])
    else
      var init :- RewriteAll(js[..|js| - 1], rule);
      var last :- Rewrite(js[|js| - 1], rule);
      Success(init + [last])
  }

  /** The texts that a rewrite stores. */
  function StoredBy(j: Json, rule: Rule): set<string>
    decreases j
  {
    match rule(j)
    case Fail => {}
    case Replace(_, stored) => stored
    case Keep => if IsNode(j) then StoredByAll(j.children, rule) else {}
  }

  function StoredByAll(js: seq<Json>, rule: Rule): set<string>
    decreases js
  {
    if js == [] then {} else StoredByAll(js[..|js| - 1], rule) + StoredBy(js[|js| - 1], rule)
  }

  function Size(j: Json): (n: nat)
    ensures n > 0
    decreases j
  {
    1 + if IsNode(j) then SizeAll(j.children) else 0
  }

  function SizeAll(js: seq<Json>): nat
    decreases js
  {
    if js == [] then 0 else SizeAll(js[..|js| - 1]) + Size(js[|js| - 1])
  }

  // ----- places -----

  predicate HasPath(root: Json, path: Path)
    decreases |path|
  {
    path == [] || (IsNode(root) && path[0] < |root.children| && HasPath(root.children[path[0]], path[1..]))
  }

  function At(root: Json, path: Path): Json
    requires HasPath(root, path)
    decreases |path|
  {
    if path == [] then root else At(root.children[path[0]], path[1..])
  }

  function SetAt(root: Json, path: Path, x: Json): Json
    requires HasPath(root, path)
    decreases |path|
  {
    if path == [] then x
    else WithChildren(root, root.children[path[0] := SetAt(root.children[path[0]], path[1..], x)])
  }

  ghost predicate Apart(p: Path, q: Path) {
    exists i :: 0 <= i < |p| && i < |q| && p[..i] == q[..i] && p[i] != q[i]
  }

  lemma {:induction false} SetElsewhere(root: Json, p: Path, x: Json, q: Path)
    requires HasPath(root, p) && HasPath(root, q) && Apart(p, q)
    ensures HasPath(SetAt(root, p, x), q) && At(SetAt(root, p, x), q) == At(root, q)
    decreases |p|
  {
    var i :| 0 <= i < |p| && i < |q| && p[..i] == q[..i] && p[i] != q[i];
    if i > 0 {
      assert p[0] == p[..i][0] && q[0] == q[..i][0];
      assert p[1..][..i - 1] == p[..i][1..] && q[1..][..i - 1] == q[..i][1..];
      assert p[1..][i - 1] == p[i] && q[1..][i - 1] == q[i];
      assert Apart(p[1..], q[1..]);
      SetElsewhere(root.children[p[0]], p[1..], x, q[1..]);
    }
  }

  lemma {:induction false} SetHere(root: Json, p: Path, x: Json)
    requires HasPath(root, p)
    ensures HasPath(SetAt(root, p, x), p) && At(SetAt(root, p, x), p) == x
    ensures SetAt(root, p, At(root, p)) == root
    decreases |p|
  {
    if p != [] {
      SetHere(root.children[p[0]], p[1..], x);
      assert root.children[p[0] := root.children[p[0]]] == root.children;
    }
  }

  lemma {:induction false} SetTwice(root: Json, p: Path, x: Json, y: Json)
    requires HasPath(root, p)
    ensures HasPath(SetAt(root, p, x), p) && SetAt(SetAt(root, p, x), p, y) == SetAt(root, p, y)
    decreases |p|
  {
    if p != [] {
      SetTwice(root.children[p[0]], p[1..], x, y);
    }
  }

  /** The place of the k-th child. */
  lemma {:induction false} ChildPlace(root: Json, p: Path, k: nat, y: Json)
    requires HasPath(root, p) && IsNode(At(root, p)) && k < |At(root, p).children|
    ensures HasPath(root, p + [k]) && At(root, p + [k]) == At(root, p).children[k]
    ensures SetAt(root, p + [k], y) == SetAt(root, p, WithChildren(At(root, p), At(root, p).children[k := y]))
    decreases |p|
  {
    if p != [] {
      ChildPlace(root.children[p[0]], p[1..], k, y);
      assert (p + [k])[1..] == p[1..] + [k];
    }
  }

  // ----- the stack -----

  /** The places on the stack exist, and none lies below another. */
  ghost predicate Ready(root: Json, stack: seq<Path>) {
    && (forall i :: 0 <= i < |stack| ==> HasPath(root, stack[i]))
    && (forall i, j :: 0 <= i < j < |stack| ==> Apart(stack[j], stack[i]))
  }

  lemma PopReady(root: Json, stack: seq<Path>, x: Json)
    requires Ready(root, stack) && stack != []
    ensures var p, rest := stack[|stack| - 1], stack[..|stack| - 1];
      && Ready(root, rest) && Ready(SetAt(root, p, x), rest)
      && Pending(SetAt(root, p, x), rest) == Pending(root, rest)
  {
    var p, rest := stack[|stack| - 1], stack[..|stack| - 1];
    forall i | 0 <= i < |rest|
      ensures HasPath(SetAt(root, p, x), rest[i]) && At(SetAt(root, p, x), rest[i]) == At(root, rest[i])
    {
      SetElsewhere(root, p, x, stack[i]);
    }
  }

  /** The values at the places on the stack. */
  ghost function Pending(root: Json, stack: seq<Path>): (js: seq<Json>)
    requires Ready(root, stack)
    ensures |js| == |stack| && forall i :: 0 <= i < |stack| ==> js[i] == At(root, stack[i])
  {
    seq(|stack|, i requires 0 <= i < |stack| => At(root, stack[i]))
  }

  /** The tree once every place on the stack has been rewritten, the last one first. */
  ghost function Finish(root: Json, stack: seq<Path>, rule: Rule): Result<Json, CasError>
    requires Ready(root, stack)
    decreases |stack|
  {
    if stack == [] then Success(root)
    else
      var p := stack[|stack| - 1];
      match Rewrite(At(root, p), rule)
      case Failure(error) => Failure(error)
      case Success(x) =>
        PopReady(root, stack, x);
        Finish(SetAt(root, p, x), stack[..|stack| - 1], rule)
  }

  function ChildPaths(p: Path, n: nat): (paths: seq<Path>)
    ensures |paths| == n && forall i :: 0 <= i < n ==> paths[i] == p + [i]
  {
    seq(n, i requires 0 <= i < n => p + [i])
  }

  lemma ApartBelow(p: Path, q: Path, k: nat)
    requires Apart(p, q)
    ensures Apart(p + [k], q)
  {
    var i :| 0 <= i < |p| && i < |q| && p[..i] == q[..i] && p[i] != q[i];
    assert (p + [k])[..i] == q[..i] && (p + [k])[i] != q[i];
  }

  lemma ApartSiblings(p: Path, j: nat, k: nat)
    requires j != k
    ensures Apart(p + [j], p + [k])
  {
    assert (p + [j])[..|p|] == p && (p + [k])[..|p|] == p;
    assert (p + [j])[|p|] != (p + [k])[|p|];
  }

  /** Instead of a container, its first k children. */
  lemma ExpandReady(root: Json, rest: seq<Path>, p: Path, k: nat)
    requires Ready(root, rest + [p]) && HasPath(root, p) && IsNode(At(root, p)) && k <= |At(root, p).children|
    ensures Ready(root, rest + ChildPaths(p, k))
    ensures Pending(root, rest + ChildPaths(p, k)) == Pending(root, rest + [p])[..|rest|] + At(root, p).children[..k]
  {
    hide Apart, HasPath, At;
    var before, after := rest + [p], rest + ChildPaths(p, k);
    assert before[|rest|] == p;
    forall i | 0 <= i < |after|
      ensures HasPath(root, after[i])
      ensures At(root, after[i]) == if i < |rest| then At(root, before[i]) else At(root, p).children[i - |rest|]
    {
      if i < |rest| { assert after[i] == before[i]; } else { ChildPlace(root, p, i - |rest|, Null); }
    }
    ExpandApart(root, rest, p, k);
  }

  lemma ExpandApart(root: Json, rest: seq<Path>, p: Path, k: nat)
    requires Ready(root, rest + [p])
    ensures var after := rest + ChildPaths(p, k); forall i, j :: 0 <= i < j < |after| ==> Apart(after[j], after[i])
  {
    hide Apart, HasPath;
    var before, after := rest + [p], rest + ChildPaths(p, k);
    assert before[|rest|] == p;
    forall i, j | 0 <= i < j < |after| ensures Apart(after[j], after[i]) {
      if j < |rest| {
        assert Apart(before[j], before[i]);
      } else if i < |rest| {
        assert Apart(before[|rest|], before[i]);
        ApartBelow(p, after[i], j - |rest|);
      } else {
        ApartSiblings(p, j - |rest|, i - |rest|);
      }
    }
  }

  /** Finishing the first k children is rewriting them in their container and finishing the rest. */
  ghost predicate ChildrenFinish(root: Json, rest: seq<Path>, p: Path, k: nat, rule: Rule)
    requires Ready(root, rest + ChildPaths(p, k)) && HasPath(root, p)
    requires IsNode(At(root, p)) && k <= |At(root, p).children|
  {
    var x := At(root, p);
    var r, all := RewriteAll(x.children[..k], rule), Finish(root, rest + ChildPaths(p, k), rule);
    if r.Failure? then all.Failure?
    else
      var done := SetAt(root, p, WithChildren(x, r.value + x.children[k..]));
      Ready(done, rest) && all == Finish(done, rest, rule)
  }

  /** Finishing the first k children of a container, when the others are done, finishes the container. */
  lemma {:induction false} FinishChildren(root: Json, rest: seq<Path>, p: Path, k: nat, rule: Rule)
    requires Ready(root, rest + [p]) && HasPath(root, p) && IsNode(At(root, p)) && k <= |At(root, p).children|
    ensures Ready(root, rest + ChildPaths(p, k)) && HasPath(root, p)
    ensures ChildrenFinish(root, rest, p, k, rule)
    decreases k
  {
    hide Apart, Rewrite, Finish, RewriteAll;
    ExpandReady(root, rest, p, k);
    var x := At(root, p);
    assert (rest + [p])[|rest|] == p && (rest + [p])[..|rest|] == rest;
    if k == 0 {
      SetHere(root, p, x);
      assert rest + ChildPaths(p, k) == rest && [] + x.children[0..] == x.children;
      RewriteNone(rule);
      PopReady(root, rest + [p], x);
    } else {
      ChildPlace(root, p, k - 1, Null);
      RewriteSnoc(x.children, k, rule);
      FinishPop(root, rest, p, k, rule);
      var r := Rewrite(x.children[k - 1], rule);
      if r.Success? {
        var x' := WithChildren(x, x.children[k - 1 := r.value]);
        var root' := SetAt(root, p, x');
        ChildPlace(root, p, k - 1, r.value);
        SetHere(root, p, x');
        SetKeepsReady(root, rest, p, x');
        FinishChildren(root', rest, p, k - 1, rule);
        AssembleChildren(root, rest, p, k, r.value, rule);
      }
    }
  }

  lemma RewriteNone(rule: Rule)
    ensures RewriteAll([], rule) == Success([])
  {
  }

  lemma RewriteSnoc(js: seq<Json>, k: nat, rule: Rule)
    requires 0 < k <= |js|
    ensures var init, last := RewriteAll(js[..k - 1], rule), Rewrite(js[k - 1], rule);
      var all := RewriteAll(js[..k], rule);
      if init.Failure? || last.Failure? then all.Failure? else all == Success(init.value + [last.value])
  {
    hide Rewrite;
    assert js[..k][..k - 1] == js[..k - 1];
  }

  /** The last child is finished first. */
  lemma FinishPop(root: Json, rest: seq<Path>, p: Path, k: nat, rule: Rule)
    requires k > 0 && Ready(root, rest + ChildPaths(p, k)) && HasPath(root, p + [k - 1])
    ensures var r := Rewrite(At(root, p + [k - 1]), rule);
      var all := Finish(root, rest + ChildPaths(p, k), rule);
      if r.Failure? then all.Failure?
      else
        var root' := SetAt(root, p + [k - 1], r.value);
        Ready(root', rest + ChildPaths(p, k - 1)) && all == Finish(root', rest + ChildPaths(p, k - 1), rule)
  {
    hide Apart, Rewrite;
    var stack := rest + ChildPaths(p, k);
    assert stack[|stack| - 1] == p + [k - 1] && stack[..|stack| - 1] == rest + ChildPaths(p, k - 1);
    var r := Rewrite(At(root, p + [k - 1]), rule);
    PopReady(root, stack, if r.Success? then r.value else Null);
  }

  /** One child more. */
  lemma AssembleChildren(root: Json, rest: seq<Path>, p: Path, k: nat, y: Json, rule: Rule)
    requires k > 0 && Ready(root, rest + [p]) && HasPath(root, p) && IsNode(At(root, p)) && k <= |At(root, p).children|
    requires Ready(root, rest + ChildPaths(p, k)) && HasPath(root, p + [k - 1])
    requires Rewrite(At(root, p).children[k - 1], rule) == Success(y)
    requires var x := At(root, p);
      var x' := WithChildren(x, x.children[k - 1 := y]);
      var root' := SetAt(root, p, x');
      && HasPath(root', p) && At(root', p) == x'
      && Ready(root', rest + ChildPaths(p, k - 1))
      && Finish(root, rest + ChildPaths(p, k), rule) == Finish(root', rest + ChildPaths(p, k - 1), rule)
      && ChildrenFinish(root', rest, p, k - 1, rule)
    ensures ChildrenFinish(root, rest, p, k, rule)
  {
    hide Apart, Rewrite, Finish, RewriteAll, Ready;
    var x := At(root, p);
    var x' := WithChildren(x, x.children[k - 1 := y]);
    RewriteSnoc(x.children, k, rule);
    assert x'.children[..k - 1] == x.children[..k - 1];
    var init := RewriteAll(x.children[..k - 1], rule);
    if init.Success? {
      assert init.value + x'.children[k - 1..] == (init.value + [y]) + x.children[k..];
      SetTwice(root, p, x', WithChildren(x, init.value + [y] + x.children[k..]));
    }
  }

  lemma SetKeepsReady(root: Json, rest: seq<Path>, p: Path, x: Json)
    requires Ready(root, rest + [p])
    ensures HasPath(root, p) && Ready(SetAt(root, p, x), rest + [p])
  {
    hide Apart;
    var stack := rest + [p];
    assert stack[|rest|] == p && stack[..|rest|] == rest;
    PopReady(root, stack, x);
    SetHere(root, p, x);
    forall i | 0 <= i < |stack| ensures HasPath(SetAt(root, p, x), stack[i]) {
      if i < |rest| { assert stack[i] == rest[i]; }
    }
  }

  // ----- the loop -----

  lemma {:induction false} SizeConcat(a: seq<Json>, b: seq<Json>)
    ensures SizeAll(a + b) == SizeAll(a) + SizeAll(b)
    decreases |b|
  {
    if b == [] {
      assert a + b == a;
    } else {
      assert (a + b)[..|a + b| - 1] == a + b[..|b| - 1];
      SizeConcat(a, b[..|b| - 1]);
    }
  }

  lemma {:induction false} StoredConcat(a: seq<Json>, b: seq<Json>, rule: Rule)
    ensures StoredByAll(a + b, rule) == StoredByAll(a, rule) + StoredByAll(b, rule)
    decreases |b|
  {
    if b == [] {
      assert a + b == a;
    } else {
      assert (a + b)[..|a + b| - 1] == a + b[..|b| - 1];
      StoredConcat(a, b[..|b| - 1], rule);
    }
  }

  ghost predicate SameOutcome(a: Result<Json, CasError>, b: Result<Json, CasError>) {
    if a.Success? then b == a else b.Failure?
  }

  /** Popping a value that is replaced, or that is not a container. */
  lemma PopLeaf(root: Json, stack: seq<Path>, rule: Rule, x: Json)
    requires Ready(root, stack) && stack != []
    requires Rewrite(At(root, stack[|stack| - 1]), rule) == Success(x)
    ensures var p, rest := stack[|stack| - 1], stack[..|stack| - 1];
      var current := At(root, p);
      && Ready(SetAt(root, p, x), rest)
      && Finish(root, stack, rule) == Finish(SetAt(root, p, x), rest, rule)
      && SizeAll(Pending(SetAt(root, p, x), rest)) < SizeAll(Pending(root, stack))
      && StoredByAll(Pending(root, stack), rule) ==
           StoredByAll(Pending(SetAt(root, p, x), rest), rule) + StoredBy(current, rule)
      && (x == current ==> SetAt(root, p, x) == root)
  {
    hide Apart, Rewrite, Ready, HasPath, At, SetAt, StoredBy, Size;
    var p, rest := stack[|stack| - 1], stack[..|stack| - 1];
    PopReady(root, stack, x);
    LastReady(root, stack);
    SetHere(root, p, x);
    assert Pending(root, stack)[..|stack| - 1] == Pending(root, rest);
  }

  lemma LastReady(root: Json, stack: seq<Path>)
    requires Ready(root, stack) && stack != []
    ensures HasPath(root, stack[|stack| - 1])
  {
  }

  /** Popping a container and pushing its children. */
  lemma PopNode(root: Json, stack: seq<Path>, rule: Rule)
    requires Ready(root, stack) && stack != []
    requires HasPath(root, stack[|stack| - 1])
    requires rule(At(root, stack[|stack| - 1])).Keep? && IsNode(At(root, stack[|stack| - 1]))
    ensures var p, rest := stack[|stack| - 1], stack[..|stack| - 1];
      var next := rest + ChildPaths(p, |At(root, p).children|);
      && Ready(root, next)
      && SameOutcome(Finish(root, stack, rule), Finish(root, next, rule))
      && SizeAll(Pending(root, next)) < SizeAll(Pending(root, stack))
      && StoredByAll(Pending(root, next), rule) == StoredByAll(Pending(root, stack), rule)
  {
    hide Apart, Ready, HasPath, At, SetAt, RewriteAll;
    var p, rest := stack[|stack| - 1], stack[..|stack| - 1];
    assert stack == rest + [p];
    var x := At(root, p);
    var n := |x.children|;
    ExpandReady(root, rest, p, n);
    FinishChildren(root, rest, p, n, rule);
    assert x.children[..n] == x.children && x.children[n..] == [];
    if RewriteAll(x.children, rule).Success? {
      assert RewriteAll(x.children, rule).value + [] == RewriteAll(x.children, rule).value;
    }
    var before := Pending(root, stack)[..|rest|];
    assert Pending(root, stack) == before + [x];
    SizeConcat(before, x.children);
    StoredConcat(before, x.children, rule);
  }

  /** The traversal of the source: values are popped from a stack, strings and markers are replaced in their
    container, and the children of other containers are pushed. */
  method Traverse(obj: Json, rule: Rule) returns (r: Result<Json, CasError>, stored: set<string>)
    ensures SameOutcome(Rewrite(obj, rule), r)
    ensures r.Success? ==> stored == StoredBy(obj, rule)
  {
    hide Apart, Rewrite, RewriteAll, StoredBy, StoredByAll, Size, SizeAll, Finish, Ready, SetAt;
    var root := obj;
    var stack: seq<Path> := [[]];
    stored := {};
    StartReady(obj, rule);
    while stack != []
      invariant Ready(root, stack)
      invariant SameOutcome(Rewrite(obj, rule), Finish(root, stack, rule))
      invariant stored + StoredByAll(Pending(root, stack), rule) == StoredBy(obj, rule)
      decreases SizeAll(Pending(root, stack))
    {
      var p := stack[|stack| - 1];
      LastReady(root, stack);
      var current := At(root, p);
      RewriteLeaf(current, rule);
      match rule(current) {
        case Fail =>
          FailedFinish(root, stack, rule);
          return Failure(MissingObject), stored;
        case Replace(replacement, texts) =>
          PopLeaf(root, stack, rule, replacement);
          root := SetAt(root, p, replacement);
          stack := stack[..|stack| - 1];
          stored := stored + texts;
        case Keep =>
          if IsNode(current) {
            PopNode(root, stack, rule);
            stack := stack[..|stack| - 1] + ChildPaths(p, |current.children|);
          } else {
            PopLeaf(root, stack, rule, current);
            stack := stack[..|stack| - 1];
          }
      }
    }
    EmptyStack(root, rule);
    r := Success(root);
  }

  lemma StartReady(obj: Json, rule: Rule)
    ensures Ready(obj, [[]]) && SameOutcome(Rewrite(obj, rule), Finish(obj, [[]], rule))
    ensures StoredByAll(Pending(obj, [[]]), rule) == StoredBy(obj, rule)
  {
    hide Rewrite, StoredBy;
    var stack: seq<Path> := [[]];
    assert stack[..|stack| - 1] == [];
    assert Pending(obj, stack) == [obj];
    assert [obj][..0] == [];
  }

  lemma EmptyStack(root: Json, rule: Rule)
    requires Ready(root, [])
    ensures Finish(root, [], rule) == Success(root) && StoredByAll(Pending(root, []), rule) == {}
  {
  }

  lemma FailedFinish(root: Json, stack: seq<Path>, rule: Rule)
    requires Ready(root, stack) && stack != [] && Rewrite(At(root, stack[|stack| - 1]), rule).Failure?
    ensures Finish(root, stack, rule).Failure?
  {
  }

  lemma RewriteLeaf(j: Json, rule: Rule)
    ensures rule(j).Fail? ==> Rewrite(j, rule).Failure?
    ensures rule(j).Replace? ==> Rewrite(j, rule) == Success(rule(j).replacement) && StoredBy(j, rule) == rule(j).stored
    ensures rule(j).Keep? && !IsNode(j) ==> Rewrite(j, rule) == Success(j) && StoredBy(j, rule) == {}
  {
  }

  // ----- offloading and resolving -----

  predicate IsText(j: Json) {
    j.Str? || j.Digest? || j.Stamp? || j.HashText?
  }

  predicate IsLong(j: Json) {
    j.Str? && |j.text| > INLINE_LIMIT
  }

  function Marker(text: string): Json {
    Dict([CAS_REF], [Digest(text)])
  }

  predicate IsMarker(j: Json) {
    j.Dict? && j.keys == [CAS_REF] && |j.children| == 1 && IsText(j.children[0])
  }

  function OffloadRule(): Rule {
    (j: Json) => if IsLong(j) then Replace(Marker(j.text), {j.text}) else Keep
  }

  /** cas.get_text knows the digests of the stored texts and refuses everything else. */
  function ResolveRule(cas: set<string>): Rule {
    (j: Json) =>
      if !IsMarker(j) then Keep
      else if j.children[0].Digest? && j.children[0].of in cas then Replace(Str(j.children[0].of), {})
      else Fail
  }

  /** A dictionary whose only key is the marker, with an inline string, anywhere in the tree. */
  predicate HasInlineMarker(j: Json)
    decreases j
  {
    if IsMarker(j) then !IsLong(j.children[0])
    else IsNode(j) && exists i :: 0 <= i < |j.children| && HasInlineMarker(j.children[i])
  }

  function Offloaded(j: Json): Json {
    OffloadNeverFails(j);
    Rewrite(j, OffloadRule()).value
  }

  function OffloadedAll(js: seq<Json>): (r: seq<Json>)
    ensures |r| == |js|
  {
    OffloadAllNeverFails(js);
    RewriteAll(js, OffloadRule()).value
  }

  function Resolved(j: Json, cas: set<string>): Result<Json, CasError> {
    Rewrite(j, ResolveRule(cas))
  }

  method MaybeOffloadToCas(obj: Json, cas: set<string>) returns (r: Json, after: set<string>)
    ensures r == Offloaded(obj) && after == cas + StoredBy(obj, OffloadRule())
  {
    hide Rewrite;
    OffloadNeverFails(obj);
    var q, stored := Traverse(obj, OffloadRule());
    r, after := q.value, cas + stored;
  }

  method MaybeResolveFromCas(obj: Json, cas: set<string>) returns (r: Result<Json, CasError>)
    ensures SameOutcome(Resolved(obj, cas), r)
  {
    var stored;
    r, stored := Traverse(obj, ResolveRule(cas));
  }

  lemma {:induction false} OffloadNeverFails(j: Json)
    ensures Rewrite(j, OffloadRule()).Success?
    decreases j
  {
    if IsNode(j) {
      OffloadAllNeverFails(j.children);
    }
  }

  lemma {:induction false} OffloadAllNeverFails(js: seq<Json>)
    ensures RewriteAll(js, OffloadRule()).Success?
    decreases js
  {
    if js != [] {
      OffloadAllNeverFails(js[..|js| - 1]);
      OffloadNeverFails(js[|js| - 1]);
    }
  }

  lemma OffloadedSnoc(js: seq<Json>)
    requires js != []
    ensures OffloadedAll(js) == OffloadedAll(js[..|js| - 1]) + [Offloaded(js[|js| - 1])]
  {
    OffloadAllNeverFails(js);
    OffloadAllNeverFails(js[..|js| - 1]);
    OffloadNeverFails(js[|js| - 1]);
  }

  /** Offloading neither makes nor destroys an inline marker. */
  lemma OffloadedMarker(j: Json)
    requires IsNode(j)
    ensures Offloaded(j) == WithChildren(j, OffloadedAll(j.children))
    ensures |j.children| == 1 ==> OffloadedAll(j.children) == [Offloaded(j.children[0])]
    ensures IsMarker(Offloaded(j)) <==> IsMarker(j) && !IsLong(j.children[0])
  {
    OffloadNeverFails(j);
    OffloadAllNeverFails(j.children);
    if |j.children| == 1 {
      var child := j.children[0];
      OffloadedSnoc(j.children);
      assert j.children[..0] == [];
      OffloadNeverFails(child);
      if IsNode(child) { OffloadAllNeverFails(child.children); }
      assert OffloadedAll([]) == [];
      assert OffloadedAll(j.children)[0] == Offloaded(child);
    }
  }

  /** Resolving an offloaded tree restores the original exactly when it has no inline marker. */
  lemma {:induction false} ResolveOffloadedIff(j: Json, cas: set<string>)
    requires StoredBy(j, OffloadRule()) <= cas
    ensures Resolved(Offloaded(j), cas) == Success(j) <==> !HasInlineMarker(j)
    decreases j
  {
    if IsNode(j) {
      OffloadedMarker(j);
      ResolveAllIff(j.children, cas);
      if IsMarker(j) {
        ResolveOffloadedIff(j.children[0], cas);
      }
    }
  }

  lemma {:induction false} ResolveAllIff(js: seq<Json>, cas: set<string>)
    requires StoredByAll(js, OffloadRule()) <= cas
    ensures RewriteAll(OffloadedAll(js), ResolveRule(cas)) == Success(js) <==>
            forall i :: 0 <= i < |js| ==> !HasInlineMarker(js[i])
    decreases js
  {
    hide HasInlineMarker;
    if js != [] {
      var init, last := js[..|js| - 1], js[|js| - 1];
      ResolveAllIff(init, cas);
      ResolveOffloadedIff(last, cas);
      OffloadedSnoc(js);
      assert OffloadedAll(js)[..|js| - 1] == OffloadedAll(init);
      assert forall i :: 0 <= i < |init| ==> js[i] == init[i];
      assert js == init + [last];
    }
  }

  // ----- the same in the terms of JSON -----

  /** A string of more than 4096 characters becomes a reference, a container keeps its form with every child
    offloaded, and everything else stays. */
  lemma OffloadedForm(j: Json)
    ensures match j
      case Str(text) => Offloaded(j) == if |text| > 4096 then Dict(["__cas_ref__"], [Digest(text)]) else j
      case List(children) => Offloaded(j) == List(OffloadedAll(children))
      case Dict(keys, children) => Offloaded(j) == Dict(keys, OffloadedAll(children))
      case _ => Offloaded(j) == j
  {
    if IsNode(j) { OffloadedMarker(j); }
  }

  lemma {:induction false} OffloadedAllAt(js: seq<Json>, i: nat)
    requires i < |js|
    ensures OffloadedAll(js)[i] == Offloaded(js[i])
    decreases js
  {
    hide Offloaded;
    OffloadedSnoc(js);
    if i < |js| - 1 { OffloadedAllAt(js[..|js| - 1], i); }
  }

  lemma {:induction false} StoredByAllIff(js: seq<Json>, rule: Rule, text: string)
    ensures text in StoredByAll(js, rule) <==> exists i :: 0 <= i < |js| && text in StoredBy(js[i], rule)
    decreases js
  {
    hide StoredBy;
    if js != [] {
      var init := js[..|js| - 1];
      StoredByAllIff(init, rule, text);
      assert forall i :: 0 <= i < |init| ==> js[i] == init[i];
      if text in StoredByAll(init, rule) {
        var i :| 0 <= i < |init| && text in StoredBy(init[i], rule);
        assert text in StoredBy(js[i], rule);
      }
    }
  }

  /** A long string somewhere in the tree. */
  ghost predicate LongTextAt(j: Json, path: Path, text: string) {
    HasPath(j, path) && At(j, path) == Str(text) && |text| > 4096
  }

  /** Exactly the long strings of the tree are stored, wherever they stand. */
  lemma {:induction false} StoredExact(j: Json, text: string)
    ensures text in StoredBy(j, OffloadRule()) <==> exists path :: LongTextAt(j, path, text)
    decreases j
  {
    hide StoredByAll;
    if IsNode(j) {
      StoredByAllIff(j.children, OffloadRule(), text);
      forall i | 0 <= i < |j.children|
        ensures text in StoredBy(j.children[i], OffloadRule()) <==> exists path :: LongTextAt(j.children[i], path, text)
      {
        StoredExact(j.children[i], text);
      }
      LongTextBelow(j, text);
    } else {
      if text in StoredBy(j, OffloadRule()) { assert LongTextAt(j, [], text); }
    }
  }

  lemma LongTextBelow(j: Json, text: string)
    requires IsNode(j)
    ensures (exists path :: LongTextAt(j, path, text)) <==>
            exists i :: 0 <= i < |j.children| && exists path :: LongTextAt(j.children[i], path, text)
  {
    if path :| LongTextAt(j, path, text) {
      assert LongTextAt(j.children[path[0]], path[1..], text);
    }
    if i, path :| 0 <= i < |j.children| && LongTextAt(j.children[i], path, text) {
      assert ([i] + path)[1..] == path;
      assert LongTextAt(j, [i] + path, text);
    }
  }

  /** A dictionary whose only key is the marker and whose only value is a string. */
  predicate Reference(j: Json) {
    && j.Dict? && j.keys == ["__cas_ref__"] && |j.children| == 1
    && (j.children[0].Str? || j.children[0].Digest? || j.children[0].Stamp? || j.children[0].HashText?)
  }

  /** A reference becomes the text that it names, or an error if nothing of that digest is stored; another
    container keeps its form with every child resolved, if all can be; everything else stays. */
  lemma ResolvedForm(j: Json, cas: set<string>)
    ensures if Reference(j) then
              Resolved(j, cas) == if j.children[0].Digest? && j.children[0].of in cas
                then Success(Str(j.children[0].of))
                                  else Failure(MissingObject)
            else if j.List? || j.Dict? then
              match RewriteAll(j.children, ResolveRule(cas))
              case Success(children) =>
                Resolved(j, cas) == Success(if j.List? then List(children) else Dict(j.keys, children))
              case Failure(_) => Resolved(j, cas).Failure?
            else Resolved(j, cas) == Success(j)
  {
  }

  /** All children can be resolved exactly when each can, and each then stands in its place. */
  lemma {:induction false} ResolvedAllAt(js: seq<Json>, cas: set<string>)
    ensures var r := RewriteAll(js, ResolveRule(cas));
      && (r.Success? <==> forall i :: 0 <= i < |js| ==> Resolved(js[i], cas).Success?)
      && (r.Success? ==> forall i :: 0 <= i < |js| ==> Resolved(js[i], cas) == Success(r.value[i]))
    decreases js
  {
    hide Rewrite;
    if js != [] {
      var init := js[..|js| - 1];
      ResolvedAllAt(init, cas);
      assert forall i :: 0 <= i < |init| ==> js[i] == init[i];
    }
  }
}

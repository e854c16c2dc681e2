/** The internal calls of an EVM transaction: a call tree flattened into rows with printed addresses. */
module TraceTree {
  import opened Strings

  /** A call of the tracer's result; `info` stands for the fields copied into the row. */
  datatype Call = Call(typ: string, info: string, calls: seq<Call>)

  datatype Row = Row(address: string, typ: string, info: string)

  /** The child index at each level, from the root down. */
  type Path = seq<nat>

  // ----- the rows -----

  function Segment(parentType: string, index: nat): string
  {
    parentType + "[" + Numeral(index) + "]"
  }

  /** The empty string stands for the missing address at the top. */
  function Below(current: string, rest: string): string
  {
    if current == "" then rest else current + "_" + rest
  }

  /** Rows of `calls`, the first of which is child number `first` of its parent. */
  function Rows(calls: seq<Call>, first: nat, current: string, parentType: string): seq<Row>
    decreases calls
  {
    if calls == [] then []
    else
      var address := Below(current, Segment(parentType, first));
      var call := calls[0];
      [Row(address + "_" + call.typ, call.typ, call.info)]
      + Rows(call.calls, 0, address, call.typ)
      + Rows(calls[1..], first + 1, current, parentType)
  }

  function InternalTransactions(root: Call): seq<Row>
  {
    Rows(root.calls, 0, "", root.typ)
  }

  /** The recursion of the source: it pushes onto one list. */
  method BuildEvmInternalTx(calls: seq<Call>, current: string, parentType: string, saved: seq<Row>)
    returns (save: seq<Row>)
    ensures save == saved + Rows(calls, 0, current, parentType)
    decreases calls
  {
    save := saved;
    var i := 0;
    assert calls[0..] == calls;
    while i < |calls|
      invariant 0 <= i <= |calls|
      invariant save + Rows(calls[i..], i, current, parentType) == saved + Rows(calls, 0, current, parentType)
    {
      var call := calls[i];
      assert calls[i..][0] == call && calls[i..][1..] == calls[i + 1..];
      var address := Below(current, Segment(parentType, i));
      ghost var rest := Rows(calls[i + 1..], i + 1, current, parentType);
      ghost var row := Row(address + "_" + call.typ, call.typ, call.info);
      ghost var children := Rows(call.calls, 0, address, call.typ);
      assert Rows(calls[i..], i, current, parentType) == [row] + children + rest;
      PushOrder(save, row, children, rest);
      save := save + [Row(address + "_" + call.typ, call.typ, call.info)];
      save := BuildEvmInternalTx(call.calls, address, call.typ, save);
      i := i + 1;
    }
  }

  lemma PushOrder<T>(save: seq<T>, row: T, children: seq<T>, rest: seq<T>)
    ensures save + ([row] + children + rest) == (save + [row] + children) + rest
  {
  }

  // ----- the calls of the tree and their paths -----

  predicate ValidPath(root: Call, p: Path)
    decreases |p|
  {
    p != [] ==> p[0] < |root.calls| && ValidPath(root.calls[p[0]], p[1..])
  }

  function CallAt(root: Call, p: Path): Call
    requires ValidPath(root, p)
    decreases |p|
  {
    if p == [] then root else CallAt(root.calls[p[0]], p[1..])
  }

  function Prefixed(i: nat, paths: seq<Path>): (r: seq<Path>)
    ensures |r| == |paths| && forall k :: 0 <= k < |r| ==> r[k] == [i] + paths[k]
  {
    if paths == [] then [] else [[i] + paths[0]] + Prefixed(i, paths[1..])
  }

  /** The paths of `calls` in pre-order, relative to their parent. */
  function Preorder(calls: seq<Call>, first: nat): seq<Path>
    decreases calls
  {
    if calls == [] then []
    else [[first]] + Prefixed(first, Preorder(calls[0].calls, 0)) + Preorder(calls[1..], first + 1)
  }

  /** The printed path of a call: each ancestor's type with the index of the next call. */
  function Trace(root: Call, p: Path): string
    requires p != [] && ValidPath(root, p)
    decreases |p|
  {
    var level := root.typ + "[" + Numeral(p[0]) + "]";
    if |p| == 1 then level else level + "_" + Trace(root.calls[p[0]], p[1..])
  }

  function RowOf(root: Call, current: string, p: Path): Row
    requires p != [] && ValidPath(root, p)
  {
    var call := CallAt(root, p);
    Row(Below(current, Trace(root, p)) + "_" + call.typ, call.typ, call.info)
  }

  ghost predicate RowsMatch(rows: seq<Row>, paths: seq<Path>, root: Call, current: string)
  {
    && |rows| == |paths|
    && forall k :: 0 <= k < |paths| ==> paths[k] != [] && ValidPath(root, paths[k]) && rows[k] == RowOf(root, current, paths[k])
  }

  /** Rows of a child, seen from its parent. */
  lemma ChildRow(parent: Call, first: nat, current: string, p: Path)
    requires first < |parent.calls| && p != [] && ValidPath(parent.calls[first], p)
    ensures ValidPath(parent, [first] + p)
    ensures RowOf(parent.calls[first], Below(current, Segment(parent.typ, first)), p) == RowOf(parent, current, [first] + p)
  {
    var q := [first] + p;
    assert q[0] == first && q[1..] == p;
    var seg, rest := Segment(parent.typ, first), Trace(parent.calls[first], p);
    assert seg != "";
    assert (current + "_" + seg) + "_" + rest == current + "_" + (seg + "_" + rest);
  }

  lemma CallAtChild(root: Call, p: Path)
    requires |p| == 1 && p[0] < |root.calls|
    ensures ValidPath(root, p) && CallAt(root, p) == root.calls[p[0]]
  {
    var rest := p[1..];
    assert rest == [];
    assert ValidPath(root.calls[p[0]], rest);
    assert CallAt(root.calls[p[0]], rest) == root.calls[p[0]];
  }

  lemma LeafRow(parent: Call, first: nat, current: string)
    requires first < |parent.calls|
    ensures ValidPath(parent, [first])
    ensures var call := parent.calls[first];
            RowOf(parent, current, [first])
            == Row(Below(current, Segment(parent.typ, first)) + "_" + call.typ, call.typ, call.info)
  {
    CallAtChild(parent, [first]);
  }

  lemma {:induction false} RowsFollowPaths(parent: Call, first: nat, current: string)
    requires first <= |parent.calls|
    ensures RowsMatch(Rows(parent.calls[first..], first, current, parent.typ), Preorder(parent.calls[first..], first), parent, current)
    decreases parent, |parent.calls| - first
  {
    if first < |parent.calls| {
      var calls := parent.calls[first..];
      var call := parent.calls[first];
      var address := Below(current, Segment(parent.typ, first));
      assert calls[0] == call && calls[1..] == parent.calls[first + 1..];
      RowsFollowPaths(parent, first + 1, current);
      RowsFollowPaths(call, 0, address);
      assert call.calls[0..] == call.calls;
      var inner := Preorder(call.calls, 0);
      forall k | 0 <= k < |inner|
        ensures ValidPath(parent, [first] + inner[k]) && RowOf(call, address, inner[k]) == RowOf(parent, current, [first] + inner[k])
      {
        ChildRow(parent, first, current, inner[k]);
      }
      LeafRow(parent, first, current);
      JoinMatches(parent, current, first, Rows(call.calls, 0, address, call.typ), inner,
                  Rows(calls[1..], first + 1, current, parent.typ), Preorder(calls[1..], first + 1),
                  Row(address + "_" + call.typ, call.typ, call.info));
    }
  }

  lemma MatchConcat(root: Call, current: string, a: seq<Row>, p: seq<Path>, b: seq<Row>, q: seq<Path>)
    requires RowsMatch(a, p, root, current) && RowsMatch(b, q, root, current)
    ensures RowsMatch(a + b, p + q, root, current)
  {
    forall k | 0 <= k < |p + q|
      ensures (p + q)[k] != [] && ValidPath(root, (p + q)[k]) && (a + b)[k] == RowOf(root, current, (p + q)[k])
    {
      if k < |p| {
        assert (p + q)[k] == p[k] && (a + b)[k] == a[k];
      } else {
        assert (p + q)[k] == q[k - |p|] && (a + b)[k] == b[k - |p|];
      }
    }
  }

  lemma JoinMatches(parent: Call, current: string, first: nat, inner: seq<Row>, innerPaths: seq<Path>,
                    rest: seq<Row>, restPaths: seq<Path>, row: Row)
    requires ValidPath(parent, [first]) && row == RowOf(parent, current, [first])
    requires |inner| == |innerPaths| && RowsMatch(rest, restPaths, parent, current)
    requires forall k :: 0 <= k < |innerPaths| ==>
               ValidPath(parent, [first] + innerPaths[k]) && inner[k] == RowOf(parent, current, [first] + innerPaths[k])
    ensures RowsMatch([row] + inner + rest, [[first]] + Prefixed(first, innerPaths) + restPaths, parent, current)
  {
    var paths := Prefixed(first, innerPaths);
    assert RowsMatch([row], [[first]], parent, current);
    assert RowsMatch(inner, paths, parent, current);
    MatchConcat(parent, current, [row], [[first]], inner, paths);
    MatchConcat(parent, current, [row] + inner, [[first]] + paths, rest, restPaths);
  }

  /** The order of a pre-order walk: an ancestor before its descendants, earlier siblings before later ones. */
  predicate Before(p: Path, q: Path)
  {
    if p == [] then q != []
    else q != [] && (p[0] < q[0] || (p[0] == q[0] && Before(p[1..], q[1..])))
  }

  ghost predicate Walk(paths: seq<Path>)
  {
    forall i, j :: 0 <= i < j < |paths| ==> Before(paths[i], paths[j])
  }

  lemma PrefixedMembers(i: nat, paths: seq<Path>, p: Path)
    ensures p in Prefixed(i, paths) <==> p != [] && p[0] == i && p[1..] in paths
  {
    if p in Prefixed(i, paths) {
      var k :| 0 <= k < |paths| && Prefixed(i, paths)[k] == p;
      assert p[1..] == paths[k];
    }
    if p != [] && p[0] == i && p[1..] in paths {
      var k :| 0 <= k < |paths| && paths[k] == p[1..];
      assert p == [i] + p[1..];
      assert Prefixed(i, paths)[k] == p;
    }
  }

  /** `p` leads to a call below `calls`, counting children from `first`. */
  predicate Reaches(calls: seq<Call>, first: nat, p: Path)
  {
    p != [] && first <= p[0] < first + |calls| && ValidPath(calls[p[0] - first], p[1..])
  }

  lemma {:induction false} PreorderMembers(calls: seq<Call>, first: nat, p: Path)
    ensures p in Preorder(calls, first) <==> Reaches(calls, first, p)
    decreases calls
  {
    if calls != [] {
      PreorderMembers(calls[1..], first + 1, p);
      assert Reaches(calls[1..], first + 1, p) <==> Reaches(calls, first, p) && p[0] > first;
      PrefixedMembers(first, Preorder(calls[0].calls, 0), p);
      if p != [] {
        PreorderMembers(calls[0].calls, 0, p[1..]);
        assert Reaches(calls[0].calls, 0, p[1..]) <==> p[1..] != [] && ValidPath(calls[0], p[1..]);
        assert p[1..] == [] ==> p == [p[0]];
      }
    }
  }

  lemma {:induction false} PreorderWalks(calls: seq<Call>, first: nat)
    ensures Walk(Preorder(calls, first))
    decreases calls
  {
    if calls != [] {
      var inner, rest := Preorder(calls[0].calls, 0), Preorder(calls[1..], first + 1);
      PreorderWalks(calls[0].calls, 0);
      PreorderWalks(calls[1..], first + 1);
      forall k | 0 <= k < |inner| ensures inner[k] != [] {
        PreorderMembers(calls[0].calls, 0, inner[k]);
        assert inner[k] in inner;
      }
      forall k | 0 <= k < |rest| ensures rest[k] != [] && rest[k][0] > first {
        PreorderMembers(calls[1..], first + 1, rest[k]);
        assert rest[k] in rest;
      }
      JoinWalks(first, inner, rest);
    }
  }

  lemma JoinWalks(first: nat, inner: seq<Path>, rest: seq<Path>)
    requires Walk(inner) && Walk(rest)
    requires (forall k :: 0 <= k < |inner| ==> inner[k] != []) && (forall k :: 0 <= k < |rest| ==> rest[k] != [] && rest[k][0] > first)
    ensures Walk([[first]] + Prefixed(first, inner) + rest)
  {
    var paths := [[first]] + Prefixed(first, inner) + rest;
    forall i, j | 0 <= i < j < |paths| ensures Before(paths[i], paths[j]) {
      if j <= |inner| {
        assert paths[j] == [first] + inner[j - 1] && paths[j][1..] == inner[j - 1];
        if i > 0 {
          assert paths[i] == [first] + inner[i - 1] && paths[i][1..] == inner[i - 1];
        } else {
          assert paths[0][1..] == [];
        }
      } else if i <= |inner| {
        assert paths[i][0] == first && paths[j] == rest[j - 1 - |inner|];
      } else {
        assert paths[i] == rest[i - 1 - |inner|] && paths[j] == rest[j - 1 - |inner|];
      }
    }
  }

  lemma {:induction false} BeforeIrreflexive(p: Path)
    ensures !Before(p, p)
  {
    if p != [] { BeforeIrreflexive(p[1..]); }
  }

  /**
   The rows are the calls below the root: row `k` describes the call at path `k` of the pre-order walk, the walk
   visits exactly the valid non-root paths, and visits none twice.
   */
  lemma OneRowPerCall(root: Call)
    ensures var paths := Preorder(root.calls, 0);
            && RowsMatch(InternalTransactions(root), paths, root, "")
            && (forall p: Path :: p in paths <==> p != [] && ValidPath(root, p))
            && Walk(paths)
            && (forall i, j :: 0 <= i < |paths| && 0 <= j < |paths| && paths[i] == paths[j] ==> i == j)
  {
    var paths := Preorder(root.calls, 0);
    assert root.calls[0..] == root.calls;
    RowsFollowPaths(root, 0, "");
    forall p: Path ensures p in paths <==> p != [] && ValidPath(root, p) {
      PreorderMembers(root.calls, 0, p);
    }
    PreorderWalks(root.calls, 0);
    forall i, j | 0 <= i < |paths| && 0 <= j < |paths| && paths[i] == paths[j] ensures i == j {
      BeforeIrreflexive(paths[i]);
    }
  }

  // ----- reading an address back -----

  predicate Plain(s: string) { '_' !in s && '[' !in s && ']' !in s }

  /** All type names of the tree are plain. */
  predicate PlainTypes(root: Call)
  {
    Plain(root.typ) && forall i :: 0 <= i < |root.calls| ==> PlainTypes(root.calls[i])
  }

  /** The index between the brackets of a segment. */
  function IndexOf(segment: string): int
  {
    var parts := Split(segment, '[');
    if |parts| < 2 || parts[1] == [] then 0 else ValueOf(parts[1][..|parts[1]| - 1])
  }

  function Indices(segments: seq<string>): seq<int>
  {
    if segments == [] then [] else [IndexOf(segments[0])] + Indices(segments[1..])
  }

  /** The path that a printed address names: the indices of all parts but the last. */
  function Decode(address: string): seq<int>
  {
    var parts := Split(address, '_');
    Indices(parts[..|parts| - 1])
  }

  lemma SegmentIndex(typ: string, index: nat)
    requires Plain(typ)
    ensures IndexOf(Segment(typ, index)) == index && '_' !in Segment(typ, index)
  {
    NumeralValue(index);
    var tail := Numeral(index) + "]";
    assert Segment(typ, index) == typ + ['['] + tail;
    SplitAfter(typ, tail, '[');
    SplitNone(tail, '[');
    assert tail[..|tail| - 1] == Numeral(index);
  }

  function Segments(root: Call, p: Path): seq<string>
    requires ValidPath(root, p)
    decreases |p|
  {
    if p == [] then [] else [Segment(root.typ, p[0])] + Segments(root.calls[p[0]], p[1..])
  }

  lemma {:induction false} SplitTrace(root: Call, p: Path, typ: string)
    requires p != [] && ValidPath(root, p) && PlainTypes(root) && Plain(typ)
    ensures Split(Trace(root, p) + "_" + typ, '_') == Segments(root, p) + [typ]
    decreases |p|
  {
    var seg := Segment(root.typ, p[0]);
    SegmentIndex(root.typ, p[0]);
    if |p| == 1 {
      SplitAfter(seg, typ, '_');
      SplitNone(typ, '_');
      assert Segments(root.calls[p[0]], p[1..]) == [];
    } else {
      var rest := Trace(root.calls[p[0]], p[1..]);
      SplitTrace(root.calls[p[0]], p[1..], typ);
      assert seg + "_" + rest + "_" + typ == seg + ['_'] + (rest + "_" + typ);
      SplitAfter(seg, rest + "_" + typ, '_');
    }
  }

  lemma {:induction false} IndicesOfSegments(root: Call, p: Path)
    requires ValidPath(root, p) && PlainTypes(root)
    ensures Indices(Segments(root, p)) == p
    decreases |p|
  {
    if p != [] {
      SegmentIndex(root.typ, p[0]);
      IndicesOfSegments(root.calls[p[0]], p[1..]);
      assert Segments(root, p)[1..] == Segments(root.calls[p[0]], p[1..]);
    }
  }

  lemma {:induction false} PlainAt(root: Call, p: Path)
    requires ValidPath(root, p) && PlainTypes(root)
    ensures Plain(CallAt(root, p).typ)
    decreases |p|
  {
    if p != [] { PlainAt(root.calls[p[0]], p[1..]); }
  }

  /** With plain type names, the printed address of a call decodes to its path. */
  lemma AddressDecodes(root: Call, p: Path)
    requires p != [] && ValidPath(root, p) && PlainTypes(root)
    ensures Decode(RowOf(root, "", p).address) == p
  {
    PlainAt(root, p);
    SplitTrace(root, p, CallAt(root, p).typ);
    IndicesOfSegments(root, p);
    var parts := Segments(root, p) + [CallAt(root, p).typ];
    assert parts[..|parts| - 1] == Segments(root, p);
  }

  lemma SegmentsDiffer(typ: string, i: nat, x: string, j: nat, y: string)
    requires Segment(typ, i) + x == Segment(typ, j) + y
    ensures i == j
  {
    var a, b := Numeral(i) + [']'] + x, Numeral(j) + [']'] + y;
    var head := typ + "[";
    assert Segment(typ, i) + x == head + a && Segment(typ, j) + y == head + b;
    assert a == (head + a)[|head|..] && b == (head + b)[|head|..];
    NumeralValue(i);
    NumeralValue(j);
    SplitAfter(Numeral(i), x, ']');
    SplitAfter(Numeral(j), y, ']');
    assert Split(a, ']')[0] == Numeral(i) && Split(b, ']')[0] == Numeral(j);
    NumeralInjective(i, j);
  }

  /** The address of a call, written from the top. */
  function Printed(root: Call, p: Path): string
    requires p != [] && ValidPath(root, p)
  {
    Trace(root, p) + "_" + CallAt(root, p).typ
  }

  lemma Regroup(a: string, b: string, c: string, d: string)
    ensures a + b + c + d == a + (b + (c + d))
  {
  }

  lemma RegroupFive(a: string, b: string, c: string, d: string, e: string)
    ensures a + b + c + d + e == a + (b + (c + d + e))
  {
  }

  lemma PrintedLeaf(root: Call, p: Path)
    requires |p| == 1 && ValidPath(root, p)
    ensures Printed(root, p) == Segment(root.typ, p[0]) + ("_" + root.calls[p[0]].typ)
  {
    CallAtChild(root, p);
    Regroup(Segment(root.typ, p[0]), "_", root.calls[p[0]].typ, "");
  }

  lemma PrintedDeep(root: Call, p: Path)
    requires |p| > 1 && ValidPath(root, p)
    ensures Printed(root, p) == Segment(root.typ, p[0]) + ("_" + Printed(root.calls[p[0]], p[1..]))
  {
    var child, rest := root.calls[p[0]], p[1..];
    var t := CallAt(child, rest).typ;
    assert CallAt(root, p) == CallAt(child, rest);
    RegroupFive(Segment(root.typ, p[0]), "_", Trace(child, rest), "_", t);
  }

  /** What follows the first segment. */
  function Tail(root: Call, p: Path): string
    requires p != [] && ValidPath(root, p)
  {
    "_" + if |p| == 1 then root.calls[p[0]].typ else Printed(root.calls[p[0]], p[1..])
  }

  lemma PrintedUnfold(root: Call, p: Path)
    requires p != [] && ValidPath(root, p)
    ensures Printed(root, p) == Segment(root.typ, p[0]) + Tail(root, p)
  {
    if |p| == 1 { PrintedLeaf(root, p); } else { PrintedDeep(root, p); }
  }

  lemma PrintedLonger(root: Call, p: Path)
    requires p != [] && ValidPath(root, p)
    ensures |Printed(root, p)| > |root.typ|
  {
    PrintedUnfold(root, p);
  }

  /** No two calls of a trace print the same address, whatever their type names. */
  lemma {:induction false} PrintedInjective(root: Call, p: Path, q: Path)
    requires p != [] && q != [] && ValidPath(root, p) && ValidPath(root, q)
    requires Printed(root, p) == Printed(root, q)
    ensures p == q
    decreases |p|
  {
    PrintedUnfold(root, p);
    PrintedUnfold(root, q);
    var pc, qc := root.calls[p[0]], root.calls[q[0]];
    var x, y := Tail(root, p), Tail(root, q);
    SegmentsDiffer(root.typ, p[0], x, q[0], y);
    var seg := Segment(root.typ, p[0]);
    assert x == (seg + x)[|seg|..] && y == (seg + y)[|seg|..];
    assert x[1..] == y[1..];
    if |p| > 1 { PrintedLonger(pc, p[1..]); }
    if |q| > 1 { PrintedLonger(qc, q[1..]); }
    if |p| > 1 && |q| > 1 {
      PrintedInjective(pc, p[1..], q[1..]);
    }
    assert p == [p[0]] + p[1..] && q == [q[0]] + q[1..];
  }

  /** So no two rows of a trace share an address. */
  lemma AddressesDistinct(root: Call, i: nat, j: nat)
    requires i < j < |InternalTransactions(root)|
    ensures InternalTransactions(root)[i].address != InternalTransactions(root)[j].address
  {
    OneRowPerCall(root);
    var paths := Preorder(root.calls, 0);
    assert paths[i] != paths[j];
    if Printed(root, paths[i]) == Printed(root, paths[j]) {
      PrintedInjective(root, paths[i], paths[j]);
    }
  }
}

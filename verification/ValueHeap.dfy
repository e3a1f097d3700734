/** Values as objects that own other objects: what copying, assignment and
    insertion do to the heap. A Cell is a `Value` and its content the `Value_type`
    that belongs to it. */
module ValueHeap {
  import opened OrderedMap
  import opened Text
  import opened Values

  datatype Kind = ArrayKind | StructKind(names: seq<string>)

  datatype Content =
    | Scalar(v: Value)
    | Compound(kind: Kind, kids: seq<Cell>)

  class Cell {
    var alive: bool
    var content: Content

    constructor (content: Content)
      ensures alive && this.content == content
    {
      this.alive, this.content := true, content;
    }
  }

  /** What a cell stands for. */
  datatype Tree = Leaf(v: Value) | Branch(kind: Kind, kids: seq<Tree>)

  /** The cells that belong to a value. */
  datatype Shape = Shape(cell: Cell, kids: seq<Shape>)

  ghost function Cells(s: Shape): set<Cell>
    ensures s.cell in Cells(s)
  {
    {s.cell} + AllCells(s.kids)
  }

  ghost function AllCells(ss: seq<Shape>): set<Cell> {
    if ss == [] then {} else Cells(ss[0]) + AllCells(ss[1..])
  }

  ghost function Roots(ss: seq<Shape>): (r: seq<Cell>)
    ensures |r| == |ss|
    ensures forall i :: 0 <= i < |ss| ==> r[i] == ss[i].cell
  {
    if ss == [] then [] else [ss[0].cell] + Roots(ss[1..])
  }

  /** The cells of `s`, each with one owner, stand for `t`. */
  ghost predicate Represents(s: Shape, t: Tree)
    reads Cells(s)
    decreases t, 1
  {
    && s.cell.alive
    && s.cell !in AllCells(s.kids)
    && HoldsContent(s.cell.content, s.kids, t)
  }

  /** What hangs from a cell. */
  ghost predicate HoldsContent(c: Content, ss: seq<Shape>, t: Tree)
    reads AllCells(ss)
    decreases t, 0
  {
    match t
    case Leaf(v) => c == Scalar(v) && ss == []
    case Branch(kind, ts) => c == Compound(kind, Roots(ss)) && RepresentAll(ss, ts)
  }

  ghost predicate RepresentAll(ss: seq<Shape>, ts: seq<Tree>)
    reads AllCells(ss)
    decreases ts, 1
  {
    && |ss| == |ts|
    && (ss != [] ==>
      && Represents(ss[0], ts[0])
      && Cells(ss[0]) !! AllCells(ss[1..])
      && RepresentAll(ss[1..], ts[1..]))
  }

  lemma {:induction false} AllCellsConcat(a: seq<Shape>, b: seq<Shape>)
    ensures AllCells(a + b) == AllCells(a) + AllCells(b)
    ensures Roots(a + b) == Roots(a) + Roots(b)
  {
    if a == [] {
      assert a + b == b;
    } else {
      assert (a + b)[1..] == a[1..] + b;
      AllCellsConcat(a[1..], b);
    }
  }

  lemma {:induction false} RepresentConcat(a: seq<Shape>, b: seq<Shape>, s: seq<Tree>, t: seq<Tree>)
    requires |a| == |s|
    ensures RepresentAll(a + b, s + t) <==>
      RepresentAll(a, s) && RepresentAll(b, t) && AllCells(a) !! AllCells(b)
  {
    if a == [] {
      assert a + b == b && s + t == t;
    } else {
      assert (a + b)[1..] == a[1..] + b && (s + t)[1..] == s[1..] + t;
      AllCellsConcat(a[1..], b);
      RepresentConcat(a[1..], b, s[1..], t);
    }
  }

  /** One more at the end. */
  lemma RepresentAppend(ss: seq<Shape>, ts: seq<Tree>, s: Shape, t: Tree)
    requires RepresentAll(ss, ts) && Represents(s, t) && AllCells(ss) !! Cells(s)
    ensures RepresentAll(ss + [s], ts + [t])
    ensures AllCells(ss + [s]) == AllCells(ss) + Cells(s)
    ensures Roots(ss + [s]) == Roots(ss) + [s.cell]
  {
    assert AllCells([s]) == Cells(s) + AllCells([]);
    assert [s][1..] == [] && [t][1..] == [];
    assert RepresentAll([s], [t]);
    RepresentConcat(ss, [s], ts, [t]);
    AllCellsConcat(ss, [s]);
    assert Roots([s]) == [s.cell];
  }

  lemma RepresentNext(ss: seq<Shape>, ts: seq<Tree>, i: nat, s: Shape)
    requires i < |ts| && RepresentAll(ss, ts[..i]) && Represents(s, ts[i]) && AllCells(ss) !! Cells(s)
    ensures RepresentAll(ss + [s], ts[..i + 1])
    ensures AllCells(ss + [s]) == AllCells(ss) + Cells(s)
    ensures Roots(ss + [s]) == Roots(ss) + [s.cell]
  {
    RepresentAppend(ss, ts[..i], s, ts[i]);
    assert ts[..i] + [ts[i]] == ts[..i + 1];
  }

  // ----- Copying --------------------------------------------------------------

  /** `Value_type::clone`: a new content, with cells that nobody else has. */
  method Clone(c: Content, ghost ss: seq<Shape>, ghost t: Tree, ghost olds: set<Cell>)
    returns (r: Content, ghost rs: seq<Shape>, ghost news: set<Cell>)
    requires HoldsContent(c, ss, t) && olds == AllCells(ss)
    ensures HoldsContent(r, rs, t)
    ensures news == AllCells(rs) && fresh(news)
    decreases t, 0
  {
    match c
    case Scalar(v) =>
      r, rs, news := Scalar(v), [], {};
    case Compound(kind, kids) =>
      var copies;
      copies, rs, news := CloneAll(kids, ss, t.kids, olds);
      r := Compound(kind, copies);
  }

  method CloneAll(kids: seq<Cell>, ghost ss: seq<Shape>, ghost ts: seq<Tree>, ghost olds: set<Cell>)
    returns (copies: seq<Cell>, ghost rs: seq<Shape>, ghost news: set<Cell>)
    requires kids == Roots(ss) && RepresentAll(ss, ts) && olds == AllCells(ss)
    ensures copies == Roots(rs) && RepresentAll(rs, ts)
    ensures news == AllCells(rs) && fresh(news)
    decreases ts, 1
  {
    copies, rs, news := [], [], {};
    var i := 0;
    while i < |kids|
      invariant 0 <= i <= |kids| == |ts|
      invariant copies == Roots(rs) && RepresentAll(rs, ts[..i])
      invariant news == AllCells(rs) && fresh(news)
      invariant RepresentAll(ss, ts)
    {
      RepresentAt(ss, ts, i);
      var copy;
      ghost var s, more;
      copy, s, more := Copy(kids[i], ss[i], ts[i], Cells(ss[i]));
      RepresentNext(rs, ts, i, s);
      copies, rs, news := copies + [copy], rs + [s], news + more;
      i := i + 1;
    }
    assert ts[..i] == ts;
  }

  /** The copy constructor of `Value`. */
  method Copy(c: Cell, ghost s: Shape, ghost t: Tree, ghost olds: set<Cell>)
    returns (r: Cell, ghost rs: Shape, ghost news: set<Cell>)
    requires s.cell == c && Represents(s, t) && olds == Cells(s)
    ensures rs.cell == r && Represents(rs, t)
    ensures news == Cells(rs) && fresh(news)
    decreases t, 1
  {
    var content;
    ghost var kids;
    content, kids, news := Clone(c.content, s.kids, t, AllCells(s.kids));
    r := new Cell(content);
    rs := Shape(r, kids);
    news := news + {r};
  }

  lemma {:induction false} RepresentAt(ss: seq<Shape>, ts: seq<Tree>, i: nat)
    requires RepresentAll(ss, ts) && i < |ss|
    ensures Represents(ss[i], ts[i]) && Cells(ss[i]) <= AllCells(ss)
  {
    if i > 0 {
      RepresentAt(ss[1..], ts[1..], i - 1);
    }
  }

  // ----- Deleting -------------------------------------------------------------

  /** The destructor of `Value`: all that belongs to it is gone. */
  method Delete(c: Cell, ghost s: Shape, ghost t: Tree, ghost mine: set<Cell>)
    requires s.cell == c && Represents(s, t) && mine == Cells(s)
    modifies mine
    ensures forall x :: x in mine ==> !x.alive
    decreases t, 1
  {
    DeleteContent(c.content, s.kids, t, AllCells(s.kids));
    c.alive := false;
  }

  /** The destructor of a `Value_type`. */
  method DeleteContent(c: Content, ghost ss: seq<Shape>, ghost t: Tree, ghost mine: set<Cell>)
    requires HoldsContent(c, ss, t) && mine == AllCells(ss)
    modifies mine
    ensures forall x :: x in mine ==> !x.alive
    decreases t, 0
  {
    match c
    case Scalar(_) =>
    case Compound(_, kids) =>
      var i := 0;
      ghost var left := mine;
      assert ss[0..] == ss && t.kids[0..] == t.kids;
      while i < |kids|
        invariant 0 <= i <= |kids| == |ss| == |t.kids|
        invariant RepresentAll(ss[i..], t.kids[i..]) && left == AllCells(ss[i..]) && left <= mine
        invariant forall x :: x in mine && x !in left ==> !x.alive
      {
        assert ss[i..][1..] == ss[i + 1..] && t.kids[i..][1..] == t.kids[i + 1..];
        Delete(kids[i], ss[i], t.kids[i], Cells(ss[i]));
        left := left - Cells(ss[i]);
        i := i + 1;
      }
  }

  // ----- Changing -------------------------------------------------------------

  /** `Value::operator =`. Whatever the two have to do with each other - the source
      may be a part of the target, or the target a part of the source - the target
      then stands for what the source stood for, with cells of its own. */
  method Assign(
      target: Cell, source: Cell,
      ghost s: Shape, ghost t: Tree, ghost mine: set<Cell>,
      ghost s': Shape, ghost t': Tree, ghost theirs: set<Cell>)
    returns (ghost r: Shape, ghost news: set<Cell>)
    requires s.cell == target && Represents(s, t) && mine == Cells(s)
    requires s'.cell == source && Represents(s', t') && theirs == Cells(s')
    modifies mine
    ensures r.cell == target && Represents(r, t')
    ensures Cells(r) == {target} + news && fresh(news)
    ensures forall x :: x in mine && x != target ==> !x.alive
  {
    var tmp;
    ghost var kids;
    tmp, kids, news := Clone(source.content, s'.kids, t', AllCells(s'.kids));
    DeleteContent(target.content, s.kids, t, AllCells(s.kids));
    target.content := tmp;
    r := Shape(target, kids);
  }

  /** `Array::operator =` and `Struct::operator =`, which copy, swap, and let the old
      elements go with the temporary. */
  method AssignContainer(
      target: Cell, source: Cell,
      ghost s: Shape, ghost t: Tree, ghost mine: set<Cell>,
      ghost s': Shape, ghost t': Tree, ghost theirs: set<Cell>)
    returns (ghost r: Shape, ghost news: set<Cell>)
    requires s.cell == target && Represents(s, t) && mine == Cells(s)
    requires s'.cell == source && Represents(s', t') && theirs == Cells(s')
    requires t.Branch? && t'.Branch?
    modifies mine
    ensures r.cell == target && Represents(r, t') && fresh(news)
    ensures if target == source then r == s' && unchanged(mine)
            else Cells(r) == {target} + news && forall x :: x in mine && x != target ==> !x.alive
  {
    if target == source {
      r, news := s', {};
    } else {
      var tmp;
      ghost var kids;
      tmp, kids, news := Clone(source.content, s'.kids, t', AllCells(s'.kids));
      var before := target.content;
      target.content := tmp;
      DeleteContent(before, s.kids, t, AllCells(s.kids));
      r := Shape(target, kids);
    }
  }

  /** `Array::push_back`, of a value that may be a part of the array, or the array. */
  method PushBack(
      arr: Cell, v: Cell,
      ghost s: Shape, ghost t: Tree, ghost mine: set<Cell>,
      ghost s': Shape, ghost t': Tree, ghost theirs: set<Cell>)
    returns (ghost r: Shape, ghost news: set<Cell>)
    requires s.cell == arr && Represents(s, t) && t.Branch? && t.kind == ArrayKind && mine == Cells(s)
    requires s'.cell == v && Represents(s', t') && theirs == Cells(s')
    modifies arr
    ensures r.cell == arr && Represents(r, Branch(ArrayKind, t.kids + [t']))
    ensures Cells(r) == mine + news && fresh(news)
  {
    var copy;
    ghost var kid;
    copy, kid, news := Copy(v, s', t', theirs);
    RepresentAppend(s.kids, t.kids, kid, t');
    arr.content := Compound(ArrayKind, arr.content.kids + [copy]);
    r := Shape(arr, s.kids + [kid]);
  }

  // ----- Struct::insert -------------------------------------------------------

  /** Where a name is, or belongs, among the names of a map. */
  function Spot(names: seq<string>, k: string): (i: nat)
    ensures i <= |names|
  {
    if names == [] || names[0] == k || Less(k, names[0]) then 0 else 1 + Spot(names[1..], k)
  }

  /** How many entries the new one replaces there. */
  function Replaced(names: seq<string>, k: string): (n: nat)
    ensures Spot(names, k) + n <= |names|
  {
    if Spot(names, k) < |names| && names[Spot(names, k)] == k then 1 else 0
  }

  function Splice<T>(s: seq<T>, i: nat, n: nat, x: T): seq<T>
    requires i + n <= |s|
  {
    s[..i] + [x] + s[i + n..]
  }

  lemma SpliceHead<T>(s: seq<T>, n: nat, x: T)
    requires n <= |s|
    ensures Splice(s, 0, n, x) == [x] + s[n..]
    ensures s[0..] == s
  {
  }

  lemma SpliceTail<T>(s: seq<T>, i: nat, n: nat, x: T)
    requires 0 < i && i + n <= |s|
    ensures Splice(s, i, n, x) == [s[0]] + Splice(s[1..], i - 1, n, x)
  {
  }

  /** A struct as the map that it is. */
  function Entries(names: seq<string>, kids: seq<Tree>): (m: seq<Entry<Tree>>)
    requires |names| == |kids|
    ensures |m| == |names|
    ensures forall i :: 0 <= i < |m| ==> m[i] == Entry(names[i], kids[i])
  {
    seq(|names|, i requires 0 <= i < |names| => Entry(names[i], kids[i]))
  }

  lemma {:induction false} PutIsSplice(m: seq<Entry<Tree>>, names: seq<string>, k: string, t: Tree)
    requires |names| == |m| && forall i :: 0 <= i < |m| ==> m[i].key == names[i]
    ensures Put(m, k, t) == Splice(m, Spot(names, k), Replaced(names, k), Entry(k, t))
  {
    var x := Entry(k, t);
    if m == [] || names[0] == k || Less(k, names[0]) {
      SpliceHead(m, Replaced(names, k), x);
    } else {
      PutIsSplice(m[1..], names[1..], k, t);
      SpliceTail(m, Spot(names, k), Replaced(names, k), x);
    }
  }

  lemma SplicedEntries(names: seq<string>, kids: seq<Tree>, i: nat, n: nat, k: string, t: Tree)
    requires |names| == |kids| && i + n <= |names|
    ensures |Splice(names, i, n, k)| == |Splice(kids, i, n, t)|
    ensures Entries(Splice(names, i, n, k), Splice(kids, i, n, t)) == Splice(Entries(names, kids), i, n, Entry(k, t))
  {
  }

  lemma InsertedEntries(names: seq<string>, kids: seq<Tree>, k: string, t: Tree)
    requires |names| == |kids|
    ensures var i, n := Spot(names, k), Replaced(names, k);
      && |Splice(names, i, n, k)| == |Splice(kids, i, n, t)|
      && Entries(Splice(names, i, n, k), Splice(kids, i, n, t)) == Put(Entries(names, kids), k, t)
  {
    SplicedEntries(names, kids, Spot(names, k), Replaced(names, k), k, t);
    PutIsSplice(Entries(names, kids), names, k, t);
  }

  lemma RepresentSplit(ss: seq<Shape>, ts: seq<Tree>, i: nat)
    requires RepresentAll(ss, ts) && i <= |ss|
    ensures RepresentAll(ss[..i], ts[..i]) && RepresentAll(ss[i..], ts[i..])
    ensures AllCells(ss) == AllCells(ss[..i]) + AllCells(ss[i..]) && AllCells(ss[..i]) !! AllCells(ss[i..])
  {
    assert ss == ss[..i] + ss[i..] && ts == ts[..i] + ts[i..];
    RepresentConcat(ss[..i], ss[i..], ts[..i], ts[i..]);
    AllCellsConcat(ss[..i], ss[i..]);
  }

  lemma RepresentJoin(
      a: seq<Shape>, s: Shape, c: seq<Shape>, ta: seq<Tree>, t: Tree, tc: seq<Tree>)
    requires RepresentAll(a, ta) && Represents(s, t) && RepresentAll(c, tc)
    requires AllCells(a) !! AllCells(c) && AllCells(a) !! Cells(s) && Cells(s) !! AllCells(c)
    ensures RepresentAll(a + [s] + c, ta + [t] + tc)
    ensures AllCells(a + [s] + c) == AllCells(a) + Cells(s) + AllCells(c)
    ensures Roots(a + [s] + c) == Roots(a) + [s.cell] + Roots(c)
  {
    RepresentAppend(a, ta, s, t);
    RepresentConcat(a + [s], c, ta + [t], tc);
    AllCellsConcat(a + [s], c);
  }

  lemma RootsOfSlice(ss: seq<Shape>, i: nat, j: nat)
    requires i <= j <= |ss|
    ensures Roots(ss[i..j]) == Roots(ss)[i..j]
  {
  }

  lemma SliceEnds<T>(s: seq<T>, i: nat, j: nat)
    requires i <= |s| && j <= |s|
    ensures s[0..i] == s[..i] && s[j..|s|] == s[j..]
  {
  }

  lemma RootsOfParts(ss: seq<Shape>, i: nat, n: nat, cell: Cell)
    requires i + n <= |ss|
    ensures Splice(Roots(ss), i, n, cell) == Roots(ss[..i]) + [cell] + Roots(ss[i + n..])
  {
    RootsOfSlice(ss, 0, i);
    RootsOfSlice(ss, i + n, |ss|);
    SliceEnds(ss, i, i + n);
    SliceEnds(Roots(ss), i, i + n);
  }

  /** One member, those before it and those after it. */
  lemma RepresentMember(ss: seq<Shape>, ts: seq<Tree>, i: nat)
    requires RepresentAll(ss, ts) && i < |ss|
    ensures Represents(ss[i], ts[i]) && RepresentAll(ss[..i], ts[..i]) && RepresentAll(ss[i + 1..], ts[i + 1..])
    ensures AllCells(ss[i..i + 1]) == Cells(ss[i])
    ensures AllCells(ss) == AllCells(ss[..i]) + Cells(ss[i]) + AllCells(ss[i + 1..])
    ensures AllCells(ss[..i]) !! Cells(ss[i]) && Cells(ss[i]) !! AllCells(ss[i + 1..]) && AllCells(ss[..i]) !! AllCells(ss[i + 1..])
  {
    RepresentSplit(ss, ts, i);
    assert ss[i..][1..] == ss[i + 1..] && ts[i..][1..] == ts[i + 1..];
    assert ss[i..i + 1] == [ss[i]] && [ss[i]][1..] == [];
  }

  /** The cells of the member with that name, if there is one, are gone; those of the
      others are not among them. */
  method DeleteMember(
      kids: seq<Cell>, i: nat, n: nat, ghost ss: seq<Shape>, ghost ts: seq<Tree>, ghost mine: set<Cell>)
    requires n <= 1 && i + n <= |kids| && kids == Roots(ss) && RepresentAll(ss, ts) && mine == AllCells(ss)
    modifies mine
    ensures RepresentAll(ss[..i], ts[..i]) && RepresentAll(ss[i + n..], ts[i + n..])
    ensures AllCells(ss[..i]) + AllCells(ss[i + n..]) <= mine && AllCells(ss[..i]) !! AllCells(ss[i + n..])
    ensures AllCells(ss[i..i + n]) == mine - AllCells(ss[..i]) - AllCells(ss[i + n..])
    ensures forall x :: x in AllCells(ss[i..i + n]) ==> !x.alive
  {
    if n == 1 {
      RepresentMember(ss, ts, i);
      Delete(kids[i], ss[i], ts[i], Cells(ss[i]));
    } else {
      RepresentSplit(ss, ts, i);
      assert ss[i..i] == [];
    }
  }

  /** The value comes between the members before and the members after it. */
  method Place(
      str: Cell, names: seq<string>, kids: seq<Cell>, ghost alive: set<Cell>,
      ghost a: seq<Shape>, ghost kid: Shape, ghost c: seq<Shape>,
      ghost ta: seq<Tree>, ghost t: Tree, ghost tc: seq<Tree>)
    requires RepresentAll(a, ta) && Represents(kid, t) && RepresentAll(c, tc)
    requires AllCells(a) !! AllCells(c) && AllCells(a) !! Cells(kid) && Cells(kid) !! AllCells(c)
    requires alive == AllCells(a) + Cells(kid) + AllCells(c) && str.alive && str !in alive
    requires kids == Roots(a) + [kid.cell] + Roots(c)
    modifies str
    ensures Represents(Shape(str, a + [kid] + c), Branch(StructKind(names), ta + [t] + tc))
    ensures AllCells(a + [kid] + c) == alive
  {
    str.content := Compound(StructKind(names), kids);
    RepresentJoin(a, kid, c, ta, t, tc);
  }

  lemma WhatIsLeft(
      mine: set<Cell>, str: Cell, all: set<Cell>, a: set<Cell>, gone: set<Cell>, c: set<Cell>, theirs: set<Cell>)
    requires mine == {str} + all && str !in all && a + c <= all && gone == all - a - c
    ensures {str} + (a + theirs + c) == mine - gone + theirs
  {
  }

  /** The cells of the member with that name, if there is one. */
  ghost function ReplacedCells(s: Shape, names: seq<string>, k: string): set<Cell> {
    var i, n := Spot(names, k), Replaced(names, k);
    if i + n <= |s.kids| then AllCells(s.kids[i..i + n]) else {}
  }

  /** One member in the place of the `n` from `i` on. */
  method ReplaceMembers(
      str: Cell, i: nat, n: nat, f: string, v: Cell,
      ghost s: Shape, ghost names: seq<string>, ghost ts: seq<Tree>, ghost mine: set<Cell>,
      ghost kid: Shape, ghost t: Tree, ghost theirs: set<Cell>)
    returns (ghost r: Shape)
    requires s.cell == str && Represents(s, Branch(StructKind(names), ts)) && mine == Cells(s)
    requires kid.cell == v && Represents(kid, t) && theirs == Cells(kid) && theirs !! mine
    requires n <= 1 && i + n <= |names| == |ts| == |s.kids|
    modifies mine
    ensures r.cell == str && Represents(r, Branch(StructKind(Splice(names, i, n, f)), Splice(ts, i, n, t)))
    ensures Cells(r) == mine - AllCells(s.kids[i..i + n]) + theirs
    ensures forall x :: x in AllCells(s.kids[i..i + n]) ==> !x.alive
  {
    ghost var a, c, gone := s.kids[..i], s.kids[i + n..], AllCells(s.kids[i..i + n]);
    var kids := str.content.kids;
    var newNames := Splice(str.content.kind.names, i, n, f);
    DeleteMember(kids, i, n, s.kids, ts, AllCells(s.kids));
    assert Represents(kid, t) && forall x :: x in gone ==> !x.alive;
    ghost var alive := AllCells(a) + theirs + AllCells(c);
    assert {str} + alive == mine - gone + theirs && str !in gone by {
      WhatIsLeft(mine, str, AllCells(s.kids), AllCells(a), gone, AllCells(c), theirs);
    }
    assert Splice(kids, i, n, v) == Roots(a) + [v] + Roots(c) by {
      RootsOfParts(s.kids, i, n, v);
    }
    Place(str, newNames, Splice(kids, i, n, v), alive, a, kid, c, ts[..i], t, ts[i + n..]);
    r := Shape(str, a + [kid] + c);
    assert Represents(r, Branch(StructKind(newNames), ts[..i] + [t] + ts[i + n..]));
    assert Cells(r) == {str} + alive;
  }

  /** `Struct::insert` of a value that nobody else has. */
  method InsertOwned(
      str: Cell, f: string, v: Cell,
      ghost s: Shape, ghost t: Tree, ghost mine: set<Cell>,
      ghost kid: Shape, ghost t': Tree, ghost theirs: set<Cell>)
    returns (ghost r: Shape, ghost u: Tree)
    requires s.cell == str && Represents(s, t) && mine == Cells(s)
    requires t.Branch? && t.kind.StructKind? && |t.kind.names| == |t.kids|
    requires kid.cell == v && Represents(kid, t') && theirs == Cells(kid) && theirs !! mine
    modifies mine
    ensures r.cell == str && Represents(r, u) && Cells(r) <= mine + theirs
    ensures u.Branch? && u.kind.StructKind? && |u.kind.names| == |u.kids|
    ensures Entries(u.kind.names, u.kids) == Put(Entries(t.kind.names, t.kids), f, t')
    ensures Cells(r) == mine - ReplacedCells(s, t.kind.names, f) + theirs
    ensures forall x :: x in ReplacedCells(s, t.kind.names, f) ==> !x.alive
  {
    var names := str.content.kind.names;
    var i, n := Spot(names, f), Replaced(names, f);
    assert t == Branch(StructKind(names), t.kids) && RepresentAll(s.kids, t.kids);
    r := ReplaceMembers(str, i, n, f, v, s, names, t.kids, mine, kid, t', theirs);
    InsertedEntries(names, t.kids, f, t');
    u := Branch(StructKind(Splice(names, i, n, f)), Splice(t.kids, i, n, t'));
  }

  /** `Struct::insert`, of a value that may be a part of the struct, even of the
      member that it replaces. */
  method Insert(
      str: Cell, f: string, v: Cell,
      ghost s: Shape, ghost t: Tree, ghost mine: set<Cell>,
      ghost s': Shape, ghost t': Tree, ghost theirs: set<Cell>)
    returns (ghost r: Shape, ghost u: Tree, ghost news: set<Cell>)
    requires s.cell == str && Represents(s, t) && mine == Cells(s)
    requires t.Branch? && t.kind.StructKind? && |t.kind.names| == |t.kids|
    requires s'.cell == v && Represents(s', t') && theirs == Cells(s')
    modifies mine
    ensures r.cell == str && Represents(r, u) && Cells(r) <= mine + news && fresh(news)
    ensures u.Branch? && u.kind.StructKind? && |u.kind.names| == |u.kids|
    ensures Entries(u.kind.names, u.kids) == Put(Entries(t.kind.names, t.kids), f, t')
    ensures Cells(r) == mine - ReplacedCells(s, t.kind.names, f) + news
    ensures forall x :: x in ReplacedCells(s, t.kind.names, f) ==> !x.alive
  {
    var p;
    ghost var kid;
    p, kid, news := Copy(v, s', t', theirs);
    r, u := InsertOwned(str, f, p, s, t, mine, kid, t', news);
  }

  /** A copy stays what it is when the original is given another value. */
  method CopyThenAssign(
      a: Cell, b: Cell,
      ghost s: Shape, ghost t: Tree, ghost mine: set<Cell>,
      ghost s': Shape, ghost t': Tree, ghost theirs: set<Cell>)
    returns (c: Cell, ghost kept: Shape, ghost changed: Shape)
    requires s.cell == a && Represents(s, t) && mine == Cells(s)
    requires s'.cell == b && Represents(s', t') && theirs == Cells(s')
    modifies mine
    ensures kept.cell == c && Represents(kept, t)
    ensures changed.cell == a && Represents(changed, t')
    ensures Cells(kept) !! Cells(changed)
  {
    ghost var copies, news;
    c, kept, copies := Copy(a, s, t, mine);
    changed, news := Assign(a, b, s, t, mine, s', t', theirs);
  }
}

/** The keyed row reconciler of internal/web/static/app.js: prepTable's row keys and renderTableDiff.
    DOM nodes are objects with identity; styling, sorting and event listeners are not part of it. */
module RowDiff {
  import opened Wrappers
  import opened Decimal

  // ---------------------------------------------------------------- row keys

  /** How many of the first n bases equal `base`. */
  function Count(bases: seq<string>, n: nat, base: string): nat
    requires n <= |bases|
  {
    if n == 0 then 0 else Count(bases, n - 1, base) + if bases[n - 1] == base then 1 else 0
  }

  /** The key of row i: its base and its number among the rows of that base so far. */
  function RowKey(prefix: string, bases: seq<string>, i: nat): string
    requires i < |bases|
  {
    prefix + bases[i] + "#" + Show(Count(bases, i + 1, bases[i]))
  }

  lemma {:induction false} CountGrows(bases: seq<string>, i: nat, j: nat, base: string)
    requires i <= j <= |bases|
    ensures Count(bases, i, base) <= Count(bases, j, base)
    decreases j
  {
    if i < j { CountGrows(bases, i, j - 1, base); }
  }

  /** Whatever the bases contain, the generated keys are pairwise distinct. */
  lemma RowKeysDistinct(prefix: string, bases: seq<string>, i: nat, j: nat)
    requires i < j < |bases|
    ensures RowKey(prefix, bases, i) != RowKey(prefix, bases, j)
  {
    var m, n := Count(bases, i + 1, bases[i]), Count(bases, j + 1, bases[j]);
    ShowPlain(m, '#');
    ShowPlain(n, '#');
    if RowKey(prefix, bases, i) == RowKey(prefix, bases, j) {
      CutAtLastSeparator(prefix + bases[i], prefix + bases[j], Show(m), Show(n), '#');
      assert bases[i] == (prefix + bases[i])[|prefix|..] == (prefix + bases[j])[|prefix|..] == bases[j];
      ShowInjective(m, n);
      CountGrows(bases, i + 1, j, bases[i]);
      assert false;
    }
  }

  /** The rows up to the i-th with the base of the i-th. */
  function Equals(bases: seq<string>, n: nat, base: string): set<nat>
    requires n <= |bases|
  {
    set k: nat | k < n && bases[k] == base
  }

  lemma {:induction false} CountIsNumber(bases: seq<string>, n: nat, base: string)
    requires n <= |bases|
    ensures Count(bases, n, base) == |Equals(bases, n, base)|
  {
    if n > 0 {
      CountIsNumber(bases, n - 1, base);
      var before := Equals(bases, n - 1, base);
      assert Equals(bases, n, base) == if bases[n - 1] == base then before + {n - 1} else before;
    }
  }

  /** A row keeps its key from one page to another exactly when its base and its number among the rows of
      that base are the same, wherever it stands. */
  lemma RowKeyExact(prefix: string, bases: seq<string>, i: nat, others: seq<string>, j: nat)
    requires i < |bases| && j < |others|
    ensures RowKey(prefix, bases, i) == RowKey(prefix, others, j) <==>
      bases[i] == others[j] && |Equals(bases, i + 1, bases[i])| == |Equals(others, j + 1, others[j])|
  {
    CountIsNumber(bases, i + 1, bases[i]);
    CountIsNumber(others, j + 1, others[j]);
    var m, n := Count(bases, i + 1, bases[i]), Count(others, j + 1, others[j]);
    ShowPlain(m, '#');
    ShowPlain(n, '#');
    if RowKey(prefix, bases, i) == RowKey(prefix, others, j) {
      CutAtLastSeparator(prefix + bases[i], prefix + others[j], Show(m), Show(n), '#');
      assert bases[i] == (prefix + bases[i])[|prefix|..] == (prefix + others[j])[|prefix|..] == others[j];
      ShowInjective(m, n);
    }
  }

  /** The loop of prepTable over the rows of the page. */
  method AssignKeys(prefix: string, bases: seq<string>) returns (keys: seq<string>)
    ensures |keys| == |bases|
    ensures forall i :: 0 <= i < |keys| ==> keys[i] == RowKey(prefix, bases, i)
    ensures forall i, j :: 0 <= i < j < |keys| ==> keys[i] != keys[j]
  {
    keys := [];
    var seen: map<string, nat> := map[];
    for i := 0 to |bases|
      invariant |keys| == i
      invariant forall k :: 0 <= k < i ==> keys[k] == RowKey(prefix, bases, k)
      invariant forall b :: Count(bases, i, b) == if b in seen then seen[b] else 0
    {
      var base := bases[i];
      seen := seen[base := (if base in seen then seen[base] else 0) + 1];
      keys := keys + [prefix + base + "#" + Show(seen[base])];
    }
    forall i, j | 0 <= i < j < |keys| ensures keys[i] != keys[j] { RowKeysDistinct(prefix, bases, i, j); }
  }

  // ---------------------------------------------------------------- cells

  /** What a cell shows: plain text, or controlled markup. */
  datatype Content = Plain(text: string) | Markup(html: string)

  /** A cell as mk describes it; content is absent when neither text nor html is given. */
  datatype Cell = Cell(content: Option<Content>, cls: string, title: string)

  /** A td node with the snapshots of what was last written to it. */
  datatype Td = Td(
    shown: Content, cls: string, title: string,
    text: Option<string>, html: Option<string>, clsSnap: Option<string>, titleSnap: Option<string>)

  const NEW_TD: Td := Td(Plain(""), "", "", None, None, None, None)

  /** A snapshot that is there tells what the node shows. */
  predicate Coherent(td: Td) {
    && (td.text.Some? ==> td.shown == Plain(td.text.value))
    && (td.html.Some? ==> td.shown == Markup(td.html.value))
    && (td.clsSnap.Some? ==> td.cls == td.clsSnap.value)
    && (td.titleSnap.Some? ==> td.title == td.titleSnap.value)
  }

  /** The cell was written over what stood there: without content given, the old one stays. */
  predicate ShowsCell(td: Td, c: Cell, was: Td) {
    && td.shown == (if c.content.Some? then c.content.value else was.shown)
    && td.cls == c.cls && td.title == c.title
  }

  /** The row's cells were written over what stood there; cells beyond the description stay. */
  predicate ShowsCells(tds: seq<Td>, cells: seq<Cell>, was: seq<Td>) {
    && |tds| == |was|
    && (forall j :: 0 <= j < |tds| && j < |cells| ==> ShowsCell(tds[j], cells[j], was[j]))
    && (forall j :: |cells| <= j < |tds| ==> tds[j] == was[j])
  }

  /** The cell update: writes only what its snapshot does not already tell. */
  method UpdateCell(td: Td, c: Cell) returns (r: Td)
    requires Coherent(td)
    ensures Coherent(r) && ShowsCell(r, c, td)
  {
    r := td;
    if c.content.Some? {
      match c.content.value {
        case Markup(html) =>
          if r.html != Some(html) { r := r.(shown := Markup(html), html := Some(html)); }
          r := r.(text := None);
        case Plain(text) =>
          if r.text != Some(text) { r := r.(shown := Plain(text), text := Some(text)); }
          r := r.(html := None);
      }
    }
    if r.clsSnap != Some(c.cls) { r := r.(cls := c.cls, clsSnap := Some(c.cls)); }
    if r.titleSnap != Some(c.title) { r := r.(title := c.title, titleSnap := Some(c.title)); }
  }

  // ---------------------------------------------------------------- rows

  /** A row as mk describes it; `row` stands for the data object it came from. */
  datatype Spec = Spec(key: string, cls: string, title: string, cells: seq<Cell>, row: int)

  function NewCells(columns: nat): (tds: seq<Td>)
    ensures |tds| == columns && forall j :: 0 <= j < |tds| ==> tds[j] == NEW_TD
  {
    seq(columns, _ => NEW_TD)
  }

  class Tr {
    var key: Option<string>
    var row: int
    var cls: string
    var title: string
    var clsSnap: Option<string>
    var titleSnap: Option<string>
    var tds: seq<Td>

    constructor (key: string, columns: nat)
      ensures this.key == Some(key) && Faithful() && tds == NewCells(columns)
    {
      this.key, row, cls, title, clsSnap, titleSnap := Some(key), 0, "", "", None, None;
      tds := NewCells(columns);
    }

    /** The row of one cell that innerHTML makes of a placeholder. */
    constructor Placeholder(cls: string, text: string)
      ensures key == None && Faithful() && tds == [Td(Markup(text), cls, "", None, None, None, None)]
    {
      key, row, this.cls, title, clsSnap, titleSnap := None, 0, "", "", None, None;
      tds := [Td(Markup(text), cls, "", None, None, None, None)];
    }

    /** Every snapshot of the row tells the truth. */
    ghost predicate Faithful()
      reads this
    {
      && (clsSnap.Some? ==> cls == clsSnap.value)
      && (titleSnap.Some? ==> title == titleSnap.value)
      && (forall j :: 0 <= j < |tds| ==> Coherent(tds[j]))
    }

    /** The row shows its description, written over the cells it had. */
    ghost predicate Displays(d: Spec, was: seq<Td>)
      reads this
    {
      && key == Some(d.key) && row == d.row && cls == d.cls && title == d.title
      && ShowsCells(tds, d.cells, was)
    }

    method Paint(d: Spec)
      requires Faithful() && key == Some(d.key)
      modifies this
      ensures Faithful() && Displays(d, old(tds))
    {
      row := d.row;
      if clsSnap != Some(d.cls) { cls, clsSnap := d.cls, Some(d.cls); }
      if titleSnap != Some(d.title) { title, titleSnap := d.title, Some(d.title); }
      var j := 0;
      while j < |d.cells|
        invariant j <= |d.cells| && |tds| == old(|tds|)
        invariant Faithful() && key == Some(d.key) && row == d.row && cls == d.cls && title == d.title
        invariant forall i :: 0 <= i < j && i < |tds| ==> ShowsCell(tds[i], d.cells[i], old(tds)[i])
        invariant forall i :: j <= i < |tds| ==> tds[i] == old(tds)[i]
      {
        if j < |tds| {
          var td := UpdateCell(tds[j], d.cells[j]);
          tds := tds[j := td];
        }
        j := j + 1;
      }
    }
  }

  // ---------------------------------------------------------------- the table body

  ghost predicate NoDuplicates(s: seq<Tr>) {
    forall i, j :: 0 <= i < j < |s| ==> s[i] != s[j]
  }

  /** The keys of the descriptions. */
  function KeySet(specs: seq<Spec>): set<string> {
    if specs == [] then {} else KeySet(specs[..|specs| - 1]) + {specs[|specs| - 1].key}
  }

  lemma KeySetNone(specs: seq<Spec>)
    ensures KeySet(specs[..0]) == {}
  {
  }

  lemma KeySetSnoc(specs: seq<Spec>, i: nat)
    requires i < |specs|
    ensures KeySet(specs[..i + 1]) == KeySet(specs[..i]) + {specs[i].key}
    ensures (forall j :: 0 <= j < i ==> specs[j].key != specs[i].key) ==> specs[i].key !in KeySet(specs[..i])
  {
    assert specs[..i + 1][..i] == specs[..i];
    KeySetMembers(specs[..i]);
  }

  lemma {:induction false} KeySetMembers(specs: seq<Spec>)
    ensures forall k :: k in KeySet(specs) ==> exists i :: 0 <= i < |specs| && specs[i].key == k
    ensures forall i :: 0 <= i < |specs| ==> specs[i].key in KeySet(specs)
  {
    if specs != [] {
      var init := specs[..|specs| - 1];
      KeySetMembers(init);
      forall k | k in KeySet(specs) ensures exists i :: 0 <= i < |specs| && specs[i].key == k {
        if k in KeySet(init) {
          var i :| 0 <= i < |init| && init[i].key == k;
          assert specs[i].key == k;
        }
      }
    }
  }

  /** Each of these nodes is filed in the map under its key. */
  ghost predicate Filed(s: seq<Tr>, m: map<string, Tr>)
    reads set c | c in s
  {
    forall c :: c in s ==> c.key.Some? && c.key.value in m && m[c.key.value] == c
  }

  class Tbody {
    var children: seq<Tr>
    var cache: Option<map<string, Tr>>   // __diff.map; None after setTableState wrote a placeholder

    ghost function Map(): map<string, Tr>
      reads this
    {
      if cache.Some? then cache.value else map[]
    }

    ghost function Nodes(): set<Tr>
      reads this
    {
      (set c | c in children) + Map().Values
    }

    /** Whatever was drawn before: the cached rows are filed under their own key with true snapshots,
        and no other child carries one of these keys. */
    ghost predicate Valid()
      reads this, Nodes()
    {
      && NoDuplicates(children)
      && (forall k :: k in Map() ==> Map()[k].key == Some(k) && Map()[k].Faithful())
      && (forall c :: c in children && c.key.Some? && c.key.value in Map() ==> Map()[c.key.value] == c)
    }

    constructor ()
      ensures Valid() && children == [] && Map() == map[]
    {
      children, cache := [], None;
    }

    /** Every known row has n cells. */
    ghost predicate Uniform(n: nat)
      reads this, Map().Values
    {
      forall k :: k in Map() ==> |Map()[k].tds| == n
    }

    /** setTableState: one placeholder row, and nothing is known any more. */
    method SetTableState(cls: string, text: string)
      modifies this
      ensures Valid() && Map() == map[] && forall n: nat :: Uniform(n)
      ensures |children| == 1 && children[0].key == None
      ensures children[0].tds == [Td(Markup(text), cls, "", None, None, None, None)]
    {
      var tr := new Tr.Placeholder(cls, text);
      cache, children := None, [tr];
    }

    /** removeChild of a child. */
    method RemoveChild(c: Tr)
      modifies this`children
      ensures children == Minus(old(children), c)
    {
      var i, kept := 0, [];
      assert children[0..] == children;
      while i < |children|
        invariant i <= |children| && children == old(children)
        invariant Minus(children, c) == kept + Minus(children[i..], c)
      {
        assert children[i..][1..] == children[i + 1..];
        if children[i] != c { kept := kept + [children[i]]; }
        i := i + 1;
      }
      assert children[i..] == [];
      children := kept;
    }

    /** appendChild: a node already in the list moves to its end. */
    method AppendChild(c: Tr)
      modifies this`children
      ensures children == Minus(old(children), c) + [c]
    {
      RemoveChild(c);
      children := children + [c];
    }

    /** The first loop of renderTableDiff, from the last child to the first: rows without a key, and
        rows whose key the map does not know, leave; the others stay in their order. */
    method RemoveOrphans()
      requires cache.Some?
      modifies this`children
      ensures children == Managed(old(children), Map())
    {
      var i := |children|;
      assert children[..i] == children;
      while i > 0
        invariant 0 <= i <= |children| && cache == old(cache)
        invariant Managed(old(children), cache.value) == Managed(children[..i], cache.value) + children[i..]
      {
        i := i - 1;
        var orphan := children[i];
        ManagedLast(children, cache.value, i);
        hide Managed;
        if orphan.key.None? || orphan.key.value == "" || orphan.key.value !in cache.value {
          children := children[..i] + children[i + 1..];
        }
      }
    }

    /** One turn of the second loop: the row is created or reused, painted, and moved to the end. */
    method DrawRow(d: Spec) returns (tr: Tr)
      requires cache.Some? && NoDuplicates(children)
      requires forall k :: k in Map() ==> Map()[k].key == Some(k) && Map()[k].Faithful()
      modifies this, if d.key in Map() then {Map()[d.key]} else {}
      ensures cache.Some? && Map() == old(Map())[d.key := tr] && tr.key == Some(d.key)
      ensures tr.Faithful() && children == Minus(old(children), tr) + [tr]
      ensures d.key in old(Map()) ==> tr == old(Map()[d.key]) && tr.Displays(d, old(Map()[d.key].tds))
      ensures d.key !in old(Map()) ==> fresh(tr) && tr.Displays(d, NewCells(|d.cells|))
    {
      if d.key in cache.value {
        tr := cache.value[d.key];
      } else {
        tr := new Tr(d.key, |d.cells|);
        cache := Some(cache.value[d.key := tr]);
        AppendChild(tr);
        MinusAbsent(old(children), tr);
        MinusConcat(old(children), [tr], tr);
        assert Minus([tr], tr) == [];
      }
      tr.Paint(d);
      AppendChild(tr);
    }

    /** DrawRow, told which children are already in their final place: `done`, at the end of the list. */
    method DrawNext(d: Spec, ghost left: seq<Tr>, ghost done: seq<Tr>) returns (tr: Tr, ghost left': seq<Tr>)
      requires cache.Some? && children == left + done && NoDuplicates(children)
      requires forall k :: k in Map() ==> Map()[k].key == Some(k) && Map()[k].Faithful()
      requires Filed(left, Map()) && forall c :: c in done ==> c.key != Some(d.key)
      modifies this, if d.key in Map() then {Map()[d.key]} else {}
      ensures cache.Some? && Map() == old(Map())[d.key := tr] && tr.key == Some(d.key)
      ensures tr.Faithful() && tr !in done
      ensures d.key in old(Map()) ==> tr == old(Map()[d.key]) && tr.Displays(d, old(Map()[d.key].tds))
      ensures d.key !in old(Map()) ==> fresh(tr) && tr.Displays(d, NewCells(|d.cells|))
      ensures children == left' + (done + [tr]) && NoDuplicates(children) && Filed(left', Map())
    {
      tr := DrawRow(d);
      MoveToEnd(left, done, tr);
      MinusMembers(left, tr);
      left' := Minus(left, tr);
      forall c | c in left' ensures c.key.Some? && c.key.value in Map() && Map()[c.key.value] == c {
        assert c in left && c != tr;
        assert old(c.key.Some? && c.key.value in Map() && Map()[c.key.value] == c);
      }
    }

    /** The third loop: rows not drawn this time leave the list and the map. */
    method DropVanished(seen: set<string>, ghost left: seq<Tr>, ghost done: seq<Tr>)
      requires cache.Some? && children == left + done
      requires forall c :: c in left ==> c.key.Some? && c.key.value in Map() && c.key.value !in seen
      requires forall c :: c in done ==> c.key.Some? && c.key.value in seen
      requires forall k :: k in Map() ==> Map()[k].key == Some(k)
      requires forall c :: c in left ==> Map()[c.key.value] == c
      modifies this
      ensures children == done
      ensures cache.Some? && Map().Keys == old(Map()).Keys * seen
      ensures forall k :: k in Map() ==> Map()[k] == old(Map())[k]
    {
      var todo := cache.value.Keys;
      ghost var rest := left;
      while todo != {}
        invariant cache.Some? && children == rest + done
        invariant todo <= Map().Keys <= old(Map()).Keys
        invariant forall k :: k in Map() ==> Map()[k] == old(Map())[k]
        invariant forall k :: k in old(Map()) && (k in todo || k in seen) ==> k in Map()
        invariant forall k :: k in Map() ==> k in todo || k in seen
        invariant forall c :: c in rest ==> c in left && c.key.value in todo
        decreases |todo|
      {
        var k :| k in todo;
        todo := todo - {k};
        if k !in seen {
          var tr := cache.value[k];
          MinusConcat(rest, done, tr);
          MinusAbsent(done, tr);
          MinusMembers(rest, tr);
          if tr in children { RemoveChild(tr); } else { MinusAbsent(rest + done, tr); }
          assert tr == old(Map())[k];
          forall c | c in Minus(rest, tr) ensures c.key.value != k { assert old(Map())[c.key.value] == c; }
          rest := Minus(rest, tr);
          cache := Some(cache.value - {k});
        }
      }
      SomeMember(rest);
    }

    /** `before` holds the rows known now and their cells. */
    ghost predicate Remembered(before: Before)
      reads this, Map().Values
    {
      && before.rows == Map() && before.tds.Keys == Map().Keys
      && forall k :: k in Map() ==> Map()[k].tds == before.tds[k]
    }

    /** After i rows: what is left over stands before what was drawn, and every known row keeps its node. */
    ghost predicate Midway(specs: seq<Spec>, i: nat, left: seq<Tr>, done: seq<Tr>, before: Before)
      requires i <= |specs|
      reads this, Map().Values, children, done, left, before.rows.Values
    {
      && cache.Some? && children == left + done && NoDuplicates(children) && Filed(left, Map())
      && (forall k :: k in Map() ==> Map()[k].key == Some(k) && Map()[k].Faithful())
      && Map().Keys == before.rows.Keys + KeySet(specs[..i])
      && (forall k :: k in before.rows ==> Map()[k] == before.rows[k])
      && before.tds.Keys == before.rows.Keys
      && (forall k :: k in before.rows && k !in KeySet(specs[..i]) ==> before.rows[k].tds == before.tds[k])
      && Drawn(specs[..i], done, Map(), before)
    }

    lemma MidwayStart(specs: seq<Spec>, before: Before)
      requires cache.Some? && NoDuplicates(children) && Filed(children, Map())
      requires forall k :: k in Map() ==> Map()[k].key == Some(k) && Map()[k].Faithful()
      requires Remembered(before)
      ensures Midway(specs, 0, children, [], before)
    {
    }

    lemma MidwayEnd(specs: seq<Spec>, left: seq<Tr>, done: seq<Tr>, before: Before)
      requires Midway(specs, |specs|, left, done, before)
      ensures cache.Some? && children == left + done && NoDuplicates(children) && Filed(left, Map())
      ensures forall k :: k in Map() ==> Map()[k].key == Some(k) && Map()[k].Faithful()
      ensures Drawn(specs, done, Map(), before) && KeySet(specs) <= Map().Keys
    {
      assert specs[..|specs|] == specs;
    }

    /** One turn of the second loop, with its place in the whole. */
    method DrawTurn(specs: seq<Spec>, i: nat, ghost left: seq<Tr>, ghost done: seq<Tr>, ghost before: Before)
      returns (ghost left': seq<Tr>, ghost done': seq<Tr>)
      requires i < |specs| && Midway(specs, i, left, done, before)
      requires forall i, j :: 0 <= i < j < |specs| ==> specs[i].key != specs[j].key
      modifies this, if specs[i].key in before.rows then {before.rows[specs[i].key]} else {}
      ensures Midway(specs, i + 1, left', done', before)
    {
      hide Tr.Displays, Tr.Faithful, NoDuplicates, Filed, Drawn, KeySet;
      ghost var m := Map();
      DrawnKeys(specs, i, done, m, before);
      KeySetSnoc(specs, i);
      var tr;
      tr, left' := DrawNext(specs[i], left, done);
      DrawnSnoc(specs, i, done, tr, m, Map(), before);
      done' := done + [tr];
    }

    /** The second loop. */
    method DrawAll(specs: seq<Spec>, ghost before: Before)
      returns (seen: set<string>, ghost left: seq<Tr>, ghost done: seq<Tr>)
      requires cache.Some? && NoDuplicates(children) && Filed(children, Map())
      requires forall k :: k in Map() ==> Map()[k].key == Some(k) && Map()[k].Faithful()
      requires forall i, j :: 0 <= i < j < |specs| ==> specs[i].key != specs[j].key
      requires Remembered(before)
      modifies this, Map().Values
      ensures Midway(specs, |specs|, left, done, before)
      ensures seen == KeySet(specs)
    {
      hide Tr.Displays, Tr.Faithful, NoDuplicates, Filed, Drawn, Midway;
      left, done, seen := children, [], {};
      MidwayStart(specs, before);
      KeySetNone(specs);
      var i := 0;
      while i < |specs|
        invariant i <= |specs| && Midway(specs, i, left, done, before)
        invariant seen == KeySet(specs[..i])
      {
        KeySetSnoc(specs, i);
        left, done := DrawTurn(specs, i, left, done, before);
        seen := seen + {specs[i].key};
        i := i + 1;
      }
      assert specs[..i] == specs;
    }

    /** renderTableDiff: one row per description, in order; a row whose key was known is the same node,
        and no other node is. The table looks as if drawn from nothing exactly when every row that is
        kept fits its description; rows of n cells stay rows of n cells. */
    method Render(specs: seq<Spec>)
      requires Valid()
      requires forall i, j :: 0 <= i < j < |specs| ==> specs[i].key != specs[j].key
      modifies this, Nodes()
      ensures Valid() && |children| == |specs| && Map().Keys == KeySet(specs)
      ensures forall i :: 0 <= i < |specs| ==> specs[i].key in Map() && Map()[specs[i].key] == children[i]
      ensures forall i :: 0 <= i < |specs| ==>
        if specs[i].key in old(Map())
        then children[i] == old(Map())[specs[i].key] && children[i].Displays(specs[i], old(Map()[specs[i].key].tds))
        else children[i] !in old(Map()).Values && children[i].Displays(specs[i], NewCells(|specs[i].cells|))
      ensures LooksRebuilt(children, specs) <==>
        forall i :: 0 <= i < |specs| && specs[i].key in old(Map()) ==>
          Fits(old(Map()[specs[i].key].tds), specs[i].cells)
      ensures forall n: nat | old(Uniform(n)) && forall i :: 0 <= i < |specs| ==> |specs[i].cells| == n :: Uniform(n)
    {
      if cache.None? { cache := Some(map[]); }
      ghost var before := Before(Map(), map k | k in Map() :: Map()[k].tds);
      hide Tr.Displays, Tr.Faithful, Drawn, KeySet, Look, Rebuilt, Fits, NewCells;
      Reconcile(specs, before);
      DrawnNodes(specs, children, Map(), before);
      DrawnLook(specs, children, Map(), before);
      forall n: nat | old(Uniform(n)) && forall i :: 0 <= i < |specs| ==> |specs[i].cells| == n
        ensures Uniform(n)
      {
        DrawnUniform(specs, children, Map(), before, n);
      }
    }

    /** A page: prepTable's placeholders and row keys, and then the reconciler. The sorted and paged rows
        are given by their key bases, None while loading, and by what mk makes of each row and its key. */
    method RenderPage(prefix: string, bases: Option<seq<string>>, mk: (nat, string) -> Spec, emptyText: string)
      requires Valid()
      modifies this, Nodes()
      ensures Valid()
      ensures forall n: nat | old(Uniform(n)) && FullRows(mk, n) :: Uniform(n)
      ensures bases.None? || bases.value == [] ==>
        var (cls, text) := if bases.None? then ("loading-row", "加载中…") else ("empty-row", emptyText);
        && Map() == map[] && |children| == 1 && children[0].key == None
        && children[0].tds == [Td(Markup(text), cls, "", None, None, None, None)]
      ensures bases.Some? && bases.value != [] ==>
        var specs := PageSpecs(prefix, bases.value, mk);
        && |children| == |specs| && Map().Keys == KeySet(specs)
        && (forall i :: 0 <= i < |specs| ==> children[i].key == Some(specs[i].key))
        && (forall i :: 0 <= i < |specs| && specs[i].key in old(Map()) ==> children[i] == old(Map())[specs[i].key])
        && (LooksRebuilt(children, specs) <==> forall i :: 0 <= i < |specs| && specs[i].key in old(Map()) ==>
              Fits(old(Map()[specs[i].key].tds), specs[i].cells))
        && forall n: nat | old(Uniform(n)) && FullRows(mk, n) :: LooksRebuilt(children, specs)
    {
      if bases.None? {
        SetTableState("loading-row", "加载中…");
      } else if bases.value == [] {
        SetTableState("empty-row", emptyText);
      } else {
        hide LooksRebuilt, FullRows, Uniform, KeySet, Fits;
        RenderRows(prefix, bases.value, mk);
      }
    }

    /** Keys for all rows, whatever their bases, and one render. */
    method RenderRows(prefix: string, bases: seq<string>, mk: (nat, string) -> Spec)
      requires Valid()
      modifies this, Nodes()
      ensures Valid()
      ensures forall n: nat | old(Uniform(n)) && FullRows(mk, n) ::
        Uniform(n) && LooksRebuilt(children, PageSpecs(prefix, bases, mk))
      ensures var specs := PageSpecs(prefix, bases, mk);
        && |children| == |specs| && Map().Keys == KeySet(specs)
        && (forall i :: 0 <= i < |specs| ==> children[i].key == Some(specs[i].key))
        && (forall i :: 0 <= i < |specs| && specs[i].key in old(Map()) ==> children[i] == old(Map())[specs[i].key])
        && (LooksRebuilt(children, specs) <==> forall i :: 0 <= i < |specs| && specs[i].key in old(Map()) ==>
              Fits(old(Map()[specs[i].key].tds), specs[i].cells))
    {
      var keys := AssignKeys(prefix, bases);
      var specs := seq(|keys|, (i: int) requires 0 <= i < |keys| => mk(i, keys[i]).(key := keys[i]));
      assert specs == PageSpecs(prefix, bases, mk);
      hide Tr.Faithful, KeySet, Look, Rebuilt, Fits, FullRows, PageSpecs;
      FullPageFits(prefix, bases, mk);
      Render(specs);
    }

    method Reconcile(specs: seq<Spec>, ghost before: Before)
      requires Valid() && cache.Some?
      requires forall i, j :: 0 <= i < j < |specs| ==> specs[i].key != specs[j].key
      requires Remembered(before)
      modifies this, Map().Values
      ensures Valid() && Drawn(specs, children, Map(), before) && Map().Keys == KeySet(specs)
    {
      hide Tr.Displays, Tr.Faithful, Drawn, KeySet, Managed, IsManaged, Midway;
      ManagedFiled(children, Map());
      RemoveOrphans();
      var seen; ghost var left, done;
      seen, left, done := DrawAll(specs, before);
      ghost var m := Map();
      MidwayEnd(specs, left, done, before);
      DoneSeen(specs, left, done, m, before);
      DropVanished(seen, left, done);
      DrawnIn(specs, done, m, Map(), before);
    }
  }

  /** The rows known before a render, and the cells each had. */
  datatype Before = Before(rows: map<string, Tr>, tds: map<string, seq<Td>>)

  /** The cells a description is written over: those of the row known under its key, or new ones. */
  function Base(d: Spec, before: Before): seq<Td> {
    if d.key in before.tds then before.tds[d.key] else NewCells(|d.cells|)
  }

  /** The drawn nodes: the i-th is the map's node for the i-th key, shows its description, and is the
      node known before under that key, or else a new one. */
  ghost predicate Drawn(specs: seq<Spec>, done: seq<Tr>, m: map<string, Tr>, before: Before)
    reads set c | c in done
  {
    && |done| == |specs|
    && forall j :: 0 <= j < |specs| ==>
         && specs[j].key in m && done[j] == m[specs[j].key]
         && done[j].Displays(specs[j], Base(specs[j], before))
         && if specs[j].key in before.rows
            then done[j] == before.rows[specs[j].key]
            else done[j] !in before.rows.Values
  }

  lemma DrawnSnoc(specs: seq<Spec>, i: nat, done: seq<Tr>, tr: Tr, m: map<string, Tr>, m': map<string, Tr>,
                  before: Before)
    requires i < |specs| && Drawn(specs[..i], done, m, before) && m' == m[specs[i].key := tr]
    requires forall j :: 0 <= j < i ==> specs[j].key != specs[i].key
    requires tr.Displays(specs[i], Base(specs[i], before))
    requires if specs[i].key in before.rows then tr == before.rows[specs[i].key] else tr !in before.rows.Values
    ensures Drawn(specs[..i + 1], done + [tr], m', before)
  {
  }

  /** Drawn looks at the map under the drawn keys only. */
  lemma DrawnIn(specs: seq<Spec>, done: seq<Tr>, m: map<string, Tr>, m': map<string, Tr>, before: Before)
    requires Drawn(specs, done, m, before) && m'.Keys == KeySet(specs)
    requires forall k :: k in m' ==> k in m && m'[k] == m[k]
    ensures Drawn(specs, done, m', before)
  {
    KeySetMembers(specs);
  }

  /** What is drawn already carries other keys than the next description. */
  lemma DrawnKeys(specs: seq<Spec>, i: nat, done: seq<Tr>, m: map<string, Tr>, before: Before)
    requires i < |specs| && Drawn(specs[..i], done, m, before)
    requires forall j :: 0 <= j < i ==> specs[j].key != specs[i].key
    ensures forall c :: c in done ==> c.key != Some(specs[i].key)
  {
  }

  // ---------------------------------------------------------------- a page

  /** The descriptions of a page: what mk makes of each row, under the key it was given. */
  function PageSpecs(prefix: string, bases: seq<string>, mk: (nat, string) -> Spec): (specs: seq<Spec>)
    ensures |specs| == |bases|
  {
    seq(|bases|, (i: int) requires 0 <= i < |bases| =>
      mk(i, RowKey(prefix, bases, i)).(key := RowKey(prefix, bases, i)))
  }

  /** Every row is described by n cells, each with content. */
  ghost predicate FullRows(mk: (nat, string) -> Spec, n: nat) {
    forall i: nat, key: string ::
      |mk(i, key).cells| == n && forall j :: 0 <= j < n ==> mk(i, key).cells[j].content.Some?
  }

  lemma FullPageFits(prefix: string, bases: seq<string>, mk: (nat, string) -> Spec)
    ensures forall n: nat, i, was: seq<Td> ::
      FullRows(mk, n) && 0 <= i < |bases| && |was| == n ==> Fits(was, PageSpecs(prefix, bases, mk)[i].cells)
    ensures forall n: nat, i ::
      FullRows(mk, n) && 0 <= i < |bases| ==> |PageSpecs(prefix, bases, mk)[i].cells| == n
  {
  }

  // ---------------------------------------------------------------- a full rebuild

  datatype CellLook = CellLook(shown: Content, cls: string, title: string)
  datatype RowLook = RowLook(key: Option<string>, row: int, cls: string, title: string, cells: seq<CellLook>)

  /** Empty markup looks like empty text. */
  function Plainly(c: Content): Content {
    if c == Markup("") then Plain("") else c
  }

  ghost function Look(tr: Tr): RowLook
    reads tr
  {
    RowLook(tr.key, tr.row, tr.cls, tr.title, CellLooks(tr.tds))
  }

  function CellLooks(tds: seq<Td>): (looks: seq<CellLook>)
    ensures |looks| == |tds|
  {
    seq(|tds|, (j: int) requires 0 <= j < |tds| => CellLook(Plainly(tds[j].shown), tds[j].cls, tds[j].title))
  }

  /** The row that drawing a description from nothing gives: exactly its cells, empty without content. */
  function Rebuilt(d: Spec): RowLook {
    RowLook(Some(d.key), d.row, d.cls, d.title, RebuiltCells(d.cells))
  }

  function RebuiltCells(cells: seq<Cell>): (looks: seq<CellLook>)
    ensures |looks| == |cells|
  {
    seq(|cells|, (j: int) requires 0 <= j < |cells| =>
      CellLook(if cells[j].content.Some? then Plainly(cells[j].content.value) else Plain(""),
               cells[j].cls, cells[j].title))
  }

  /** The rows look as drawn from nothing. */
  ghost predicate LooksRebuilt(rows: seq<Tr>, specs: seq<Spec>)
    reads set c | c in rows
  {
    |rows| == |specs| && forall i :: 0 <= i < |specs| ==> Look(rows[i]) == Rebuilt(specs[i])
  }

  /** As many cells as described, and nothing left to see where no content is given. */
  predicate Fits(was: seq<Td>, cells: seq<Cell>) {
    && |was| == |cells|
    && forall j :: 0 <= j < |cells| && cells[j].content.None? ==> Plainly(was[j].shown) == Plain("")
  }

  lemma CellsLook(tds: seq<Td>, cells: seq<Cell>, was: seq<Td>)
    requires ShowsCells(tds, cells, was)
    ensures CellLooks(tds) == RebuiltCells(cells) <==> Fits(was, cells)
  {
    var looks, rebuilt := CellLooks(tds), RebuiltCells(cells);
    if looks == rebuilt {
      forall j | 0 <= j < |cells| && cells[j].content.None? ensures Plainly(was[j].shown) == Plain("") {
        assert looks[j] == rebuilt[j] && ShowsCell(tds[j], cells[j], was[j]);
      }
    }
    if Fits(was, cells) {
      forall j | 0 <= j < |cells| ensures looks[j] == rebuilt[j] {
        assert ShowsCell(tds[j], cells[j], was[j]);
      }
    }
  }

  /** Rows of n cells, drawn over or made anew, have n cells. */
  lemma DrawnUniform(specs: seq<Spec>, done: seq<Tr>, m: map<string, Tr>, before: Before, n: nat)
    requires Drawn(specs, done, m, before) && m.Keys == KeySet(specs)
    requires forall k :: k in before.tds ==> |before.tds[k]| == n
    requires forall i :: 0 <= i < |specs| ==> |specs[i].cells| == n
    ensures forall k :: k in m ==> |m[k].tds| == n
  {
    KeySetMembers(specs);
  }

  lemma DrawnNodes(specs: seq<Spec>, done: seq<Tr>, m: map<string, Tr>, before: Before)
    requires Drawn(specs, done, m, before)
    ensures |done| == |specs|
    ensures forall i :: 0 <= i < |specs| ==>
      && specs[i].key in m && m[specs[i].key] == done[i] && done[i].Displays(specs[i], Base(specs[i], before))
      && if specs[i].key in before.rows then done[i] == before.rows[specs[i].key] else done[i] !in before.rows.Values
  {
  }

  lemma DrawnLook(specs: seq<Spec>, done: seq<Tr>, m: map<string, Tr>, before: Before)
    requires Drawn(specs, done, m, before)
    ensures forall i :: 0 <= i < |specs| ==>
      (Look(done[i]) == Rebuilt(specs[i]) <==> Fits(Base(specs[i], before), specs[i].cells))
  {
    forall i | 0 <= i < |specs|
      ensures Look(done[i]) == Rebuilt(specs[i]) <==> Fits(Base(specs[i], before), specs[i].cells)
    {
      CellsLook(done[i].tds, specs[i].cells, Base(specs[i], before));
    }
  }

  // ---------------------------------------------------------------- lists of nodes

  /** Under the reconciler's care: the map knows the row's key. */
  predicate IsManaged(key: Option<string>, m: map<string, Tr>) {
    key.Some? && key.value != "" && key.value in m
  }

  ghost function Managed(s: seq<Tr>, m: map<string, Tr>): seq<Tr>
    reads set c | c in s
  {
    if s == [] then [] else
      var last := s[|s| - 1];
      Managed(s[..|s| - 1], m) + (if IsManaged(last.key, m) then [last] else [])
  }

  lemma ManagedLast(s: seq<Tr>, m: map<string, Tr>, i: nat)
    requires i < |s|
    ensures Managed(s[..i + 1], m) + s[i + 1..]
      == Managed(s[..i], m) + (if IsManaged(s[i].key, m) then s[i..] else s[i + 1..])
  {
    assert s[..i + 1][..i] == s[..i];
    assert s[i..] == [s[i]] + s[i + 1..];
  }

  lemma ManagedFiled(s: seq<Tr>, m: map<string, Tr>)
    requires NoDuplicates(s) && forall c :: c in s && c.key.Some? && c.key.value in m ==> m[c.key.value] == c
    ensures NoDuplicates(Managed(s, m)) && Filed(Managed(s, m), m)
  {
    ManagedMembers(s, m);
  }

  lemma {:induction false} ManagedMembers(s: seq<Tr>, m: map<string, Tr>)
    ensures forall c :: c in Managed(s, m) <==> c in s && IsManaged(c.key, m)
    ensures NoDuplicates(s) ==> NoDuplicates(Managed(s, m))
  {
    if s != [] {
      var init := s[..|s| - 1];
      ManagedMembers(init, m);
      assert s == init + [s[|s| - 1]];
      var r := Managed(init, m);
      forall i | 0 <= i < |r| && NoDuplicates(s) ensures r[i] != s[|s| - 1] {
        assert r[i] in r;
      }
    }
  }


  function Minus(s: seq<Tr>, x: Tr): seq<Tr> {
    if s == [] then [] else if s[0] == x then Minus(s[1..], x) else [s[0]] + Minus(s[1..], x)
  }

  lemma SomeMember(s: seq<Tr>)
    ensures s == [] || exists c :: c in s
  {
    if s != [] { assert s[0] in s; }
  }

  lemma {:induction false} MinusConcat(a: seq<Tr>, b: seq<Tr>, x: Tr)
    ensures Minus(a + b, x) == Minus(a, x) + Minus(b, x)
  {
    if a == [] {
      assert a + b == b;
    } else {
      MinusConcat(a[1..], b, x);
      var ab := a + b;
      assert ab[0] == a[0] && ab[1..] == a[1..] + b;
      assert [a[0]] + (Minus(a[1..], x) + Minus(b, x)) == [a[0]] + Minus(a[1..], x) + Minus(b, x);
    }
  }

  lemma {:induction false} MinusAbsent(s: seq<Tr>, x: Tr)
    requires x !in s
    ensures Minus(s, x) == s
  {
    if s != [] { MinusAbsent(s[1..], x); }
  }

  lemma {:induction false} MinusMembers(s: seq<Tr>, x: Tr)
    ensures forall c :: c in Minus(s, x) ==> c in s && c != x
    ensures forall c :: c in s && c != x ==> c in Minus(s, x)
  {
    if s != [] { MinusMembers(s[1..], x); }
  }

  lemma {:induction false} MinusNoDuplicates(s: seq<Tr>, x: Tr)
    requires NoDuplicates(s)
    ensures NoDuplicates(Minus(s, x))
  {
    if s != [] {
      MinusNoDuplicates(s[1..], x);
      MinusMembers(s[1..], x);
      var r := Minus(s[1..], x);
      forall j | 0 <= j < |r| ensures s[0] != r[j] {
        assert r[j] in r;
        assert r[j] in s[1..];
      }
    }
  }

  lemma MoveToEnd(left: seq<Tr>, done: seq<Tr>, x: Tr)
    requires NoDuplicates(left + done) && x !in done
    ensures Minus(left + done, x) + [x] == Minus(left, x) + (done + [x])
    ensures NoDuplicates(Minus(left, x) + (done + [x]))
  {
    MinusConcat(left, done, x);
    MinusAbsent(done, x);
    MinusMembers(left + done, x);
    MinusNoDuplicates(left + done, x);
    var r := Minus(left + done, x);
    assert x !in r;
    assert Minus(left, x) + (done + [x]) == r + [x];
    forall i | 0 <= i < |r| ensures r[i] != x { assert r[i] in r; }
  }

  /** Rows on the left have keys that were not drawn; drawn rows have drawn keys. */
  lemma DoneSeen(specs: seq<Spec>, left: seq<Tr>, done: seq<Tr>, m: map<string, Tr>, before: Before)
    requires NoDuplicates(left + done) && Drawn(specs, done, m, before) && Filed(left, m)
    ensures forall c :: c in left ==> c.key.value !in KeySet(specs)
    ensures forall c :: c in done ==> c.key.Some? && c.key.value in KeySet(specs)
  {
    KeySetMembers(specs);
    forall c | c in left ensures c.key.value !in KeySet(specs) {
      var i :| 0 <= i < |left| && left[i] == c;
      forall j | 0 <= j < |specs| ensures specs[j].key != c.key.value {
        assert (left + done)[i] != (left + done)[|left| + j];
      }
    }
  }
}

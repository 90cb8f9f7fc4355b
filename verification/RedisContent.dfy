/** Logical content of a Redis key, as READ_CONTENT in scripts/cleanup-retired-redis-prefixes.js reads it. */
module RedisContent {
  import opened Basics
  import opened Sorting

  /** What a key holds; hash fields and set members come in the order the server happens to list them. */
  datatype Content =
    | Text(value: string)
    | Hash(fields: seq<string>, values: map<string, string>)
    | Items(items: seq<string>)
    | Members(members: seq<string>)
    | Ranked(ranked: seq<string>)
    | Unsupported

  predicate Distinct<T(==)>(xs: seq<T>) {
    forall i, j :: 0 <= i < j < |xs| ==> xs[i] != xs[j]
  }

  predicate WellFormed(c: Content) {
    match c
    case Hash(fields, values) => Distinct(fields) && forall f :: f in fields ==> f in values
    case Members(members) => Distinct(members)
    case _ => true
  }

  type Stored = c: Content | WellFormed(c) witness Text("")

  datatype Kind = StringKind | HashKind | ListKind | SetKind | ZSetKind

  /** The table {t, d} that is encoded and digested. */
  datatype Data = Data(kind: Kind, cells: seq<string>)

  /** Lua's string order. */
  predicate LexLeq(a: string, b: string) {
    a == "" || (b != "" && (a[0] < b[0] || (a[0] == b[0] && LexLeq(a[1..], b[1..]))))
  }

  function Interleaved(fields: seq<string>, values: map<string, string>): (cells: seq<string>)
    requires forall f :: f in fields ==> f in values
    ensures |cells| == 2 * |fields|
  {
    if fields == [] then [] else [fields[0], values[fields[0]]] + Interleaved(fields[1..], values)
  }

  /** What the script reads from a key; None when it answers with an error. */
  function Canonical(c: Stored): Option<Data> {
    match c
    case Text(value) => Some(Data(StringKind, [value]))
    case Hash(fields, values) => SortKeeps(fields); Some(Data(HashKind, Interleaved(Sort(fields, LexLeq), values)))
    case Items(items) => Some(Data(ListKind, items))
    case Members(members) => Some(Data(SetKind, Sort(members, LexLeq)))
    case Ranked(ranked) => Some(Data(ZSetKind, ranked))
    case Unsupported => None
  }

  /** Equal up to the order in which hash fields and set members are listed. */
  predicate SameContent(a: Content, b: Content) {
    match (a, b)
    case (Text(x), Text(y)) => x == y
    case (Hash(x, u), Hash(y, v)) =>
      multiset(x) == multiset(y) && forall f :: f in x ==> f in u && f in v && u[f] == v[f]
    case (Items(x), Items(y)) => x == y
    case (Members(x), Members(y)) => multiset(x) == multiset(y)
    case (Ranked(x), Ranked(y)) => x == y
    case _ => false
  }

  lemma {:induction false} LexAntisymmetric(a: string, b: string)
    requires LexLeq(a, b) && LexLeq(b, a)
    ensures a == b
  {
    if a != "" {
      LexAntisymmetric(a[1..], b[1..]);
      assert a == [a[0]] + a[1..] && b == [b[0]] + b[1..];
    }
  }

  lemma {:induction false} LexTransitive(a: string, b: string, c: string)
    requires LexLeq(a, b) && LexLeq(b, c)
    ensures LexLeq(a, c)
  {
    if a != "" && a[0] == b[0] == c[0] {
      LexTransitive(a[1..], b[1..], c[1..]);
    }
  }

  lemma {:induction false} LexTotal(a: string, b: string)
    ensures LexLeq(a, b) || LexLeq(b, a)
  {
    if a != "" && b != "" {
      LexTotal(a[1..], b[1..]);
    }
  }

  lemma LexOrders()
    ensures TotalPreorder(LexLeq)
    ensures forall xs :: Separates(LexLeq, xs)
  {
    forall x, y ensures LexLeq(x, y) || LexLeq(y, x) { LexTotal(x, y); }
    forall x, y, z | LexLeq(x, y) && LexLeq(y, z) ensures LexLeq(x, z) { LexTransitive(x, y, z); }
    forall x, y | LexLeq(x, y) && LexLeq(y, x) ensures x == y { LexAntisymmetric(x, y); }
  }

  lemma SortKeeps(xs: seq<string>)
    ensures multiset(Sort(xs, LexLeq)) == multiset(xs)
    ensures forall x :: x in Sort(xs, LexLeq) <==> x in xs
  {
    LexOrders();
    SortSorts(xs, LexLeq);
    assert forall x :: x in Sort(xs, LexLeq) <==> x in multiset(Sort(xs, LexLeq));
  }

  lemma SortedEqually(xs: seq<string>, ys: seq<string>)
    ensures Sort(xs, LexLeq) == Sort(ys, LexLeq) <==> multiset(xs) == multiset(ys)
  {
    SortKeeps(xs);
    SortKeeps(ys);
    if multiset(xs) == multiset(ys) {
      LexOrders();
      SortIgnoresOrder(xs, ys, LexLeq);
    }
  }

  /** The interleaved cells determine the fields and their values. */
  lemma {:induction false} InterleavedInjective(x: seq<string>, u: map<string, string>, y: seq<string>,
      v: map<string, string>)
    requires (forall f :: f in x ==> f in u) && (forall f :: f in y ==> f in v)
    ensures Interleaved(x, u) == Interleaved(y, v) <==> x == y && forall f :: f in x ==> f in v && u[f] == v[f]
  {
    if x != [] && y != [] {
      InterleavedInjective(x[1..], u, y[1..], v);
      var cx, cy := Interleaved(x, u), Interleaved(y, v);
      assert cx[0] == x[0] && cx[1] == u[x[0]] && cx[2..] == Interleaved(x[1..], u);
      assert cy[0] == y[0] && cy[1] == v[y[0]] && cy[2..] == Interleaved(y[1..], v);
      assert x == [x[0]] + x[1..] && y == [y[0]] + y[1..];
    }
  }

  lemma HashReadsEqually(a: Stored, b: Stored)
    requires a.Hash? && b.Hash?
    ensures Canonical(a) == Canonical(b) <==> SameContent(a, b)
  {
    SortKeeps(a.fields);
    SortKeeps(b.fields);
    SortedEqually(a.fields, b.fields);
    InterleavedInjective(Sort(a.fields, LexLeq), a.values, Sort(b.fields, LexLeq), b.values);
  }

  /**
   * The canonical reading forgets exactly the order of hash fields and set members: two supported
   * contents read the same if and only if they are the same up to that order.
   */
  lemma ReadsEquallyExactlyWhen(a: Stored, b: Stored)
    requires Canonical(a).Some? && Canonical(b).Some?
    ensures Canonical(a) == Canonical(b) <==> SameContent(a, b)
  {
    if a.Hash? && b.Hash? {
      HashReadsEqually(a, b);
    } else if a.Members? && b.Members? {
      SortedEqually(a.members, b.members);
    }
  }

  // ---- the reading holds the content ----

  function Fields(cells: seq<string>): seq<string> {
    if |cells| < 2 then [] else [cells[0]] + Fields(cells[2..])
  }

  function Values(cells: seq<string>): map<string, string> {
    if |cells| < 2 then map[] else Values(cells[2..])[cells[0] := cells[1]]
  }

  /** The content that a reading describes. */
  function Restored(data: Data): Content {
    match data.kind
    case StringKind => if data.cells == [] then Unsupported else Text(data.cells[0])
    case HashKind => Hash(Fields(data.cells), Values(data.cells))
    case ListKind => Items(data.cells)
    case SetKind => Members(data.cells)
    case ZSetKind => Ranked(data.cells)
  }

  lemma {:induction false} InterleavedRestores(fields: seq<string>, values: map<string, string>)
    requires forall f :: f in fields ==> f in values
    ensures var cells := Interleaved(fields, values);
      Fields(cells) == fields && forall f :: f in fields ==> f in Values(cells) && Values(cells)[f] == values[f]
  {
    if fields != [] {
      InterleavedRestores(fields[1..], values);
      var cells := Interleaved(fields, values);
      assert cells[0] == fields[0] && cells[1] == values[fields[0]] && cells[2..] == Interleaved(fields[1..], values);
      assert fields == [fields[0]] + fields[1..];
    }
  }

  /** A reading loses nothing: what it describes is the content that was read. */
  lemma ReadingRestores(c: Stored)
    ensures c.Unsupported? <==> Canonical(c).None?
    ensures !c.Unsupported? ==> SameContent(c, Restored(Canonical(c).value))
  {
    match c {
      case Hash(fields, values) =>
        SortKeeps(fields);
        InterleavedRestores(Sort(fields, LexLeq), values);
      case Members(members) => SortKeeps(members);
      case _ =>
    }
  }
}

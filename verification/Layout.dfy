/** Requests as sequences of typed fields: what the `put_*` calls append, how long
    it is, and an independent reader that recovers the fields from their types. */
module Layout {
  import opened Wire

  /** A field; an array holds rows of fields. */
  datatype Value =
    | Int16(n: int)
    | Int32(n: int)
    | Int64(n: int)
    | Str(s: Option<Bytes>)
    | Blob(d: Option<Bytes>)
    | Array(rows: seq<Row>)

  datatype Row = Row(values: seq<Value>)

  datatype Shape = Int16Shape | Int32Shape | Int64Shape | StrShape | BlobShape | ArrayShape(row: seq<Shape>)

  // ----- writing -----

  /** Strings and arrays whose length overflows its field are refused. */
  predicate Writable(v: Value)
    decreases v
  {
    match v
    case Str(s) => OptLen(s) <= I16_MAX
    case Blob(d) => OptLen(d) <= I32_MAX
    case Array(rows) => |rows| <= I32_MAX && forall i :: 0 <= i < |rows| ==> AllWritable(rows[i].values)
    case _ => true
  }

  predicate AllWritable(vs: seq<Value>)
    decreases vs
  {
    forall i :: 0 <= i < |vs| ==> Writable(vs[i])
  }

  function Encoded(v: Value): (b: Bytes)
    decreases v
  {
    match v
    case Int16(n) => I16Bytes(n)
    case Int32(n) => I32Bytes(n)
    case Int64(n) => I64Bytes(n)
    case Str(s) => if s.None? then I16Bytes(-1) else I16Bytes(|s.value|) + s.value
    case Blob(d) => if d.None? then I32Bytes(-1) else I32Bytes(|d.value|) + d.value
    case Array(rows) => I32Bytes(|rows|) + EncodedRows(rows)
  }

  function EncodedAll(vs: seq<Value>): (b: Bytes)
    decreases vs
  {
    if vs == [] then [] else Encoded(vs[0]) + EncodedAll(vs[1..])
  }

  function EncodedRows(rows: seq<Row>): (b: Bytes)
    decreases rows
  {
    if rows == [] then [] else EncodedAll(rows[0].values) + EncodedRows(rows[1..])
  }

  function Size(v: Value): (n: nat)
    decreases v
  {
    match v
    case Int16(_) => 2
    case Int32(_) => 4
    case Int64(_) => 8
    case Str(s) => 2 + OptLen(s)
    case Blob(d) => 4 + OptLen(d)
    case Array(rows) => 4 + SizeOfRows(rows)
  }

  function SizeOfAll(vs: seq<Value>): (n: nat)
    decreases vs
  {
    if vs == [] then 0 else Size(vs[0]) + SizeOfAll(vs[1..])
  }

  function SizeOfRows(rows: seq<Row>): (n: nat)
    decreases rows
  {
    if rows == [] then 0 else SizeOfAll(rows[0].values) + SizeOfRows(rows[1..])
  }

  lemma {:induction false} EncodedSize(v: Value)
    ensures |Encoded(v)| == Size(v)
    decreases v
  {
    if v.Array? {
      EncodedRowsSize(v.rows);
    }
  }

  lemma {:induction false} EncodedAllSize(vs: seq<Value>)
    ensures |EncodedAll(vs)| == SizeOfAll(vs)
    decreases vs
  {
    if vs != [] {
      EncodedSize(vs[0]);
      EncodedAllSize(vs[1..]);
    }
  }

  lemma {:induction false} EncodedRowsSize(rows: seq<Row>)
    ensures |EncodedRows(rows)| == SizeOfRows(rows)
    decreases rows
  {
    if rows != [] {
      EncodedAllSize(rows[0].values);
      EncodedRowsSize(rows[1..]);
    }
  }

  lemma {:induction false} SizeOfAllConcat(p: seq<Value>, q: seq<Value>)
    ensures SizeOfAll(p + q) == SizeOfAll(p) + SizeOfAll(q)
  {
    if p == [] {
      assert p + q == q;
    } else {
      SizeOfAllConcat(p[1..], q);
      assert (p + q)[1..] == p[1..] + q;
    }
  }

  lemma SizeOfParts(p: seq<Value>, q: seq<Value>, r: seq<Value>, s: seq<Value>)
    ensures SizeOfAll(p + q + r) == SizeOfAll(p) + SizeOfAll(q) + SizeOfAll(r)
    ensures SizeOfAll(p + q + r + s) == SizeOfAll(p) + SizeOfAll(q) + SizeOfAll(r) + SizeOfAll(s)
  {
    SizeOfAllConcat(p, q);
    SizeOfAllConcat(p + q, r);
    SizeOfAllConcat(p + q + r, s);
  }

  lemma {:induction false} EncodedAllConcat(p: seq<Value>, q: seq<Value>)
    ensures EncodedAll(p + q) == EncodedAll(p) + EncodedAll(q)
  {
    if p == [] {
      assert p + q == q;
    } else {
      EncodedAllConcat(p[1..], q);
      assert (p + q)[1..] == p[1..] + q;
      Assoc(Encoded(p[0]), EncodedAll(p[1..]), EncodedAll(q));
    }
  }

  lemma {:induction false} EncodedRowsConcat(p: seq<Row>, q: seq<Row>)
    ensures EncodedRows(p + q) == EncodedRows(p) + EncodedRows(q)
  {
    if p == [] {
      assert p + q == q;
    } else {
      EncodedRowsConcat(p[1..], q);
      assert (p + q)[1..] == p[1..] + q;
      Assoc(EncodedAll(p[0].values), EncodedRows(p[1..]), EncodedRows(q));
    }
  }

  // ----- reading -----

  function ParseValue(shape: Shape, input: Bytes): (r: Parsed<Value>)
    decreases shape, 0
  {
    match shape
    case Int16Shape =>
      (match ParseI16(input) case Done(rest, n) => Done(rest, Int16(n)) case Incomplete => Incomplete case Error => Error)
    case Int32Shape =>
      (match ParseI32(input) case Done(rest, n) => Done(rest, Int32(n)) case Incomplete => Incomplete case Error => Error)
    case Int64Shape =>
      (match ParseI64(input) case Done(rest, n) => Done(rest, Int64(n)) case Incomplete => Incomplete case Error => Error)
    case StrShape =>
      (match ParseI16(input)
       case Done(rest, n) =>
         if n < 0 then Done(rest, Str(None))
         else if n > |rest| then Incomplete
         else Done(rest[n..], Str(Some(rest[..n])))
       case Incomplete => Incomplete
       case Error => Error)
    case BlobShape =>
      (match ParseOptBytes(input) case Done(rest, d) => Done(rest, Blob(d)) case Incomplete => Incomplete case Error => Error)
    case ArrayShape(row) =>
      match ParseI32(input)
      case Done(rest, n) =>
        if n < 0 then Error
        else
          (match ParseRows(row, n, rest)
           case Done(rest', rows) => Done(rest', Array(rows))
           case Incomplete => Incomplete
           case Error => Error)
      case Incomplete => Incomplete
      case Error => Error
  }

  function ParseAll(shapes: seq<Shape>, input: Bytes): (r: Parsed<seq<Value>>)
    decreases shapes, 0
  {
    if shapes == [] then Done(input, [])
    else
      match ParseValue(shapes[0], input)
      case Done(rest, v) =>
        (match ParseAll(shapes[1..], rest)
         case Done(rest', vs) => Done(rest', [v] + vs)
         case Incomplete => Incomplete
         case Error => Error)
      case Incomplete => Incomplete
      case Error => Error
  }

  function ParseRows(row: seq<Shape>, n: nat, input: Bytes): (r: Parsed<seq<Row>>)
    decreases row, n + 1
  {
    if n == 0 then Done(input, [])
    else
      match ParseAll(row, input)
      case Done(rest, vs) =>
        (match ParseRows(row, n - 1, rest)
         case Done(rest', rows) => Done(rest', [Row(vs)] + rows)
         case Incomplete => Incomplete
         case Error => Error)
      case Incomplete => Incomplete
      case Error => Error
  }

  // ----- reading back -----

  /** The field has the given type. */
  predicate Typed(v: Value, shape: Shape)
    decreases v
  {
    match v
    case Int16(_) => shape.Int16Shape?
    case Int32(_) => shape.Int32Shape?
    case Int64(_) => shape.Int64Shape?
    case Str(_) => shape.StrShape?
    case Blob(_) => shape.BlobShape?
    case Array(rows) => shape.ArrayShape? && RowsTyped(rows, shape.row)
  }

  predicate AllTyped(vs: seq<Value>, shapes: seq<Shape>)
    decreases vs
  {
    if vs == [] then shapes == []
    else shapes != [] && Typed(vs[0], shapes[0]) && AllTyped(vs[1..], shapes[1..])
  }

  predicate RowsTyped(rows: seq<Row>, row: seq<Shape>)
    decreases rows
  {
    rows == [] || (AllTyped(rows[0].values, row) && RowsTyped(rows[1..], row))
  }

  /** The numbers fit their width and the lengths their field. */
  predicate Fits(v: Value)
    decreases v
  {
    match v
    case Int16(n) => IsI16(n)
    case Int32(n) => IsI32(n)
    case Int64(n) => IsI64(n)
    case Str(s) => OptLen(s) <= I16_MAX
    case Blob(d) => OptLen(d) <= I32_MAX
    case Array(rows) => |rows| <= I32_MAX && forall i :: 0 <= i < |rows| ==> AllFit(rows[i].values)
  }

  predicate AllFit(vs: seq<Value>)
    decreases vs
  {
    forall i :: 0 <= i < |vs| ==> Fits(vs[i])
  }

  lemma StrRead(s: Option<Bytes>, rest: Bytes)
    requires OptLen(s) <= I16_MAX
    ensures ParseValue(StrShape, Encoded(Str(s)) + rest) == Done(rest, Str(s))
  {
    match s
    case None => I16RoundTrip(-1, rest);
    case Some(v) =>
      Assoc(I16Bytes(|v|), v, rest);
      I16RoundTrip(|v|, v + rest);
      assert (v + rest)[..|v|] == v && (v + rest)[|v|..] == rest;
  }

  lemma {:induction false} ValueRoundTrip(v: Value, shape: Shape, rest: Bytes)
    requires Typed(v, shape) && Fits(v)
    ensures ParseValue(shape, Encoded(v) + rest) == Done(rest, v)
    decreases v
  {
    match v
    case Int16(n) => I16RoundTrip(n, rest);
    case Int32(n) => I32RoundTrip(n, rest);
    case Int64(n) => I64RoundTrip(n, rest);
    case Str(s) => StrRead(s, rest);
    case Blob(d) => BlobRoundTrip(d, rest);
    case Array(rows) =>
      Assoc(I32Bytes(|rows|), EncodedRows(rows), rest);
      I32RoundTrip(|rows|, EncodedRows(rows) + rest);
      RowsRoundTrip(rows, shape.row, rest);
  }

  /** The fields of a request are recovered from their types alone. */
  lemma {:induction false} AllRoundTrip(vs: seq<Value>, shapes: seq<Shape>, rest: Bytes)
    requires AllTyped(vs, shapes) && AllFit(vs)
    ensures ParseAll(shapes, EncodedAll(vs) + rest) == Done(rest, vs)
    decreases vs
  {
    if vs == [] {
      assert EncodedAll(vs) + rest == rest;
    } else {
      Assoc(Encoded(vs[0]), EncodedAll(vs[1..]), rest);
      ValueRoundTrip(vs[0], shapes[0], EncodedAll(vs[1..]) + rest);
      AllRoundTrip(vs[1..], shapes[1..], rest);
      assert [vs[0]] + vs[1..] == vs;
    }
  }

  lemma {:induction false} RowsRoundTrip(rows: seq<Row>, row: seq<Shape>, rest: Bytes)
    requires RowsTyped(rows, row) && forall i :: 0 <= i < |rows| ==> AllFit(rows[i].values)
    ensures ParseRows(row, |rows|, EncodedRows(rows) + rest) == Done(rest, rows)
    decreases rows
  {
    if rows == [] {
      assert EncodedRows(rows) + rest == rest;
    } else {
      Assoc(EncodedAll(rows[0].values), EncodedRows(rows[1..]), rest);
      AllRoundTrip(rows[0].values, row, EncodedRows(rows[1..]) + rest);
      RowsRoundTrip(rows[1..], row, rest);
      assert [Row(rows[0].values)] + rows[1..] == rows;
    }
  }

  lemma {:induction false} AllTypedConcat(p: seq<Value>, ps: seq<Shape>, q: seq<Value>, qs: seq<Shape>)
    requires AllTyped(p, ps) && AllTyped(q, qs)
    ensures AllTyped(p + q, ps + qs)
  {
    if p == [] {
      assert p + q == q && ps + qs == qs;
    } else {
      AllTypedConcat(p[1..], ps[1..], q, qs);
      assert (p + q)[1..] == p[1..] + q && (ps + qs)[1..] == ps[1..] + qs;
    }
  }

  lemma SizeOfFew(a: Value, b: Value, c: Value, d: Value)
    ensures SizeOfAll([a]) == Size(a) && SizeOfAll([a, b]) == Size(a) + Size(b)
    ensures SizeOfAll([a, b, c]) == Size(a) + Size(b) + Size(c)
    ensures SizeOfAll([a, b, c, d]) == Size(a) + Size(b) + Size(c) + Size(d)
  {
    assert [a] == [a] + [] && [a, b] == [a] + [b] && [a, b, c] == [a, b] + [c] && [a, b, c, d] == [a, b, c] + [d];
    forall v ensures SizeOfAll([v]) == Size(v) {
      assert [v][1..] == [];
    }
    SizeOfAllConcat([a], [b]);
    SizeOfAllConcat([a, b], [c]);
    SizeOfAllConcat([a, b, c], [d]);
  }

  lemma TypedOne(v: Value, s: Shape)
    ensures AllTyped([v], [s]) <==> Typed(v, s)
  {
    assert [v][1..] == [] && [s][1..] == [];
  }

  /** Four fields of the given types. */
  lemma TypedFew(a: Value, b: Value, c: Value, d: Value, r: Shape, s: Shape, t: Shape, u: Shape)
    ensures Typed(a, r) ==> AllTyped([a], [r])
    ensures Typed(a, r) && Typed(b, s) ==> AllTyped([a, b], [r, s])
    ensures Typed(a, r) && Typed(b, s) && Typed(c, t) ==> AllTyped([a, b, c], [r, s, t])
    ensures Typed(a, r) && Typed(b, s) && Typed(c, t) && Typed(d, u) ==> AllTyped([a, b, c, d], [r, s, t, u])
  {
    TypedOne(a, r);
    TypedOne(b, s);
    TypedOne(c, t);
    TypedOne(d, u);
    assert [a, b][1..] == [b] && [r, s][1..] == [s];
    assert [b, c][1..] == [c] && [s, t][1..] == [t];
    assert [c, d][1..] == [d] && [t, u][1..] == [u];
    assert [a, b, c][1..] == [b, c] && [r, s, t][1..] == [s, t];
    assert [b, c, d][1..] == [c, d] && [s, t, u][1..] == [t, u];
    assert [a, b, c, d][1..] == [b, c, d] && [r, s, t, u][1..] == [s, t, u];
  }

  lemma AllTypedParts(p: seq<Value>, ps: seq<Shape>, q: seq<Value>, qs: seq<Shape>,
                      r: seq<Value>, rs: seq<Shape>, t: seq<Value>, ts: seq<Shape>)
    requires AllTyped(p, ps) && AllTyped(q, qs) && AllTyped(r, rs) && AllTyped(t, ts)
    ensures AllTyped(p + q + r, ps + qs + rs) && AllTyped(p + q + r + t, ps + qs + rs + ts)
  {
    AllTypedConcat(p, ps, q, qs);
    AllTypedConcat(p + q, ps + qs, r, rs);
    AllTypedConcat(p + q + r, ps + qs + rs, t, ts);
  }

  // ----- rows made from the items of an array -----

  function RowsOf<T>(xs: seq<T>, row: T -> seq<Value>): (rows: seq<Row>)
    ensures |rows| == |xs|
  {
    if xs == [] then [] else [Row(row(xs[0]))] + RowsOf(xs[1..], row)
  }

  lemma {:induction false} RowsOfAt<T>(xs: seq<T>, row: T -> seq<Value>, i: nat)
    requires i < |xs|
    ensures RowsOf(xs, row)[i] == Row(row(xs[i]))
  {
    if i > 0 {
      RowsOfAt(xs[1..], row, i - 1);
    }
  }

  function Sum<T>(xs: seq<T>, size: T -> nat): (n: nat) {
    if xs == [] then 0 else size(xs[0]) + Sum(xs[1..], size)
  }

  lemma {:induction false} RowsOfSize<T>(xs: seq<T>, row: T -> seq<Value>, size: T -> nat)
    requires forall i :: 0 <= i < |xs| ==> SizeOfAll(row(xs[i])) == size(xs[i])
    ensures SizeOfRows(RowsOf(xs, row)) == Sum(xs, size)
  {
    if xs != [] {
      RowsOfSize(xs[1..], row, size);
      assert RowsOf(xs, row)[1..] == RowsOf(xs[1..], row);
    }
  }

  lemma {:induction false} RowsOfTyped<T>(xs: seq<T>, row: T -> seq<Value>, shapes: seq<Shape>)
    requires forall i :: 0 <= i < |xs| ==> AllTyped(row(xs[i]), shapes)
    ensures RowsTyped(RowsOf(xs, row), shapes)
  {
    if xs != [] {
      RowsOfTyped(xs[1..], row, shapes);
      assert RowsOf(xs, row)[1..] == RowsOf(xs[1..], row);
    }
  }

  // ----- the writers -----

  /** The `put_*` call for one field; an array is written by `put_array`. */
  method PutValue(v: Value, buf: ByteBuf) returns (ok: bool)
    modifies buf
    ensures ok <==> Writable(v)
    ensures ok ==> buf.data == old(buf.data) + Encoded(v)
    ensures old(buf.data) <= buf.data
    decreases v, 1
  {
    match v {
      case Int16(n) => buf.Put(I16Bytes(n)); ok := true;
      case Int32(n) => buf.Put(I32Bytes(n)); ok := true;
      case Int64(n) => buf.Put(I64Bytes(n)); ok := true;
      case Str(s) => ok := buf.PutStr(s);
      case Blob(d) => ok := buf.PutBytes(d);
      case Array(rows) => ok := PutArray(rows, buf);
    }
  }

  /** `put_array`: the count, then each item through the callback. */
  method PutArray(rows: seq<Row>, buf: ByteBuf) returns (ok: bool)
    modifies buf
    ensures ok <==> Writable(Array(rows))
    ensures ok ==> buf.data == old(buf.data) + (I32Bytes(|rows|) + EncodedRows(rows))
    ensures old(buf.data) <= buf.data
    decreases rows, 1
  {
    if |rows| > I32_MAX {
      return false;
    }
    Assoc(buf.data, I32Bytes(|rows|), EncodedRows(rows));
    buf.Put(I32Bytes(|rows|));
    ok := PutRows(rows, buf);
  }

  method PutRows(rows: seq<Row>, buf: ByteBuf) returns (ok: bool)
    modifies buf
    ensures ok <==> forall i :: 0 <= i < |rows| ==> AllWritable(rows[i].values)
    ensures ok ==> buf.data == old(buf.data) + EncodedRows(rows)
    ensures old(buf.data) <= buf.data
    decreases rows, 0
  {
    for i := 0 to |rows|
      invariant forall j :: 0 <= j < i ==> AllWritable(rows[j].values)
      invariant buf.data == old(buf.data) + EncodedRows(rows[..i])
    {
      RowAppended(old(buf.data), rows, i);
      ok := PutAll(rows[i].values, buf);
      if !ok {
        return;
      }
    }
    assert rows[..|rows|] == rows;
    ok := true;
  }

  method PutAll(vs: seq<Value>, buf: ByteBuf) returns (ok: bool)
    modifies buf
    ensures ok <==> AllWritable(vs)
    ensures ok ==> buf.data == old(buf.data) + EncodedAll(vs)
    ensures old(buf.data) <= buf.data
    decreases vs, 1
  {
    for i := 0 to |vs|
      invariant forall j :: 0 <= j < i ==> Writable(vs[j])
      invariant buf.data == old(buf.data) + EncodedAll(vs[..i])
    {
      ok := PutValue(vs[i], buf);
      if !ok {
        return;
      }
      AllSnoc(vs, i);
      Assoc(old(buf.data), EncodedAll(vs[..i]), Encoded(vs[i]));
    }
    assert vs[..|vs|] == vs;
    ok := true;
  }

  lemma AllSnoc(vs: seq<Value>, i: nat)
    requires i < |vs|
    ensures EncodedAll(vs[..i + 1]) == EncodedAll(vs[..i]) + Encoded(vs[i])
  {
    assert vs[..i + 1] == vs[..i] + [vs[i]];
    EncodedAllConcat(vs[..i], [vs[i]]);
    assert EncodedAll([vs[i]]) == Encoded(vs[i]) + EncodedAll([]);
  }

  lemma RowsSnoc(rows: seq<Row>, i: nat)
    requires i < |rows|
    ensures EncodedRows(rows[..i + 1]) == EncodedRows(rows[..i]) + EncodedAll(rows[i].values)
  {
    assert rows[..i + 1] == rows[..i] + [rows[i]];
    EncodedRowsConcat(rows[..i], [rows[i]]);
    assert EncodedRows([rows[i]]) == EncodedAll(rows[i].values) + EncodedRows([]);
  }

  lemma EncodedFew(a: Value, b: Value, c: Value)
    ensures EncodedAll([a]) == Encoded(a) && EncodedAll([a, b]) == Encoded(a) + Encoded(b)
    ensures EncodedAll([a, b, c]) == Encoded(a) + (Encoded(b) + Encoded(c))
  {
    forall v ensures EncodedAll([v]) == Encoded(v) {
      assert [v][1..] == [];
    }
    assert [a, b][1..] == [b] && [b, c][1..] == [c] && [a, b, c][1..] == [b, c];
  }

  /** One more row behind those already written. */
  lemma RowAppended(head: Bytes, rows: seq<Row>, i: nat)
    requires i < |rows|
    ensures head + EncodedRows(rows[..i]) + EncodedAll(rows[i].values) == head + EncodedRows(rows[..i + 1])
  {
    RowsSnoc(rows, i);
    Assoc(head, EncodedRows(rows[..i]), EncodedAll(rows[i].values));
  }
}

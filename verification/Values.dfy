/** The values a row of the database or of a payload holds, and how ids are compared. */
module Values {

  datatype Option<+T> = None | Some(value: T)

  datatype Result<+T, +E> = Ok(value: T) | Err(error: E)

  /** A JSON value. An object keeps its fields in the order they were written, as a JavaScript object does. */
  datatype Json =
    | Null
    | Bool(b: bool)
    | Num(n: int)
    | Str(s: string)
    | List(items: seq<Json>)
    | Obj(fields: seq<Field>)

  datatype Field = Field(key: string, value: Json)

  function Digits(n: nat): string {
    (if n < 10 then "" else Digits(n / 10)) + ["0123456789"[n % 10]]
  }

  /** `String(value)`; a list is joined by commas, its nulls left empty. */
  function StringOf(v: Json): string
    decreases v, 0
  {
    match v
    case Null => "null"
    case Bool(b) => if b then "true" else "false"
    case Num(n) => if n < 0 then "-" + Digits(-n) else Digits(n)
    case Str(s) => s
    case List(items) => Joined(items)
    case Obj(_) => "[object Object]"
  }

  function Joined(items: seq<Json>): string
    decreases items, 1
  {
    if items == [] then ""
    else (if items[0].Null? then "" else StringOf(items[0])) + (if |items| == 1 then "" else "," + Joined(items[1..]))
  }

  /** A row: its columns in the order the reader returned them. An absent column reads as Null. */
  type Row = seq<Field>

  function Get(row: Row, column: string): Json {
    if row == [] then Null
    else if row[0].key == column then row[0].value
    else Get(row[1..], column)
  }

  /** `{ ...row, [column]: value }`: the column keeps its place, or comes last when the row did not have it. */
  function Put(row: Row, column: string, value: Json): Row {
    if row == [] then [Field(column, value)]
    else if row[0].key == column then [Field(column, value)] + row[1..]
    else [row[0]] + Put(row[1..], column, value)
  }

  lemma {:induction false} GetAfterPut(row: Row, column: string, value: Json, other: string)
    ensures Get(Put(row, column, value), other) == if other == column then value else Get(row, other)
  {
    if row == [] {
    } else if row[0].key == column {
      assert Put(row, column, value)[1..] == row[1..];
    } else {
      GetAfterPut(row[1..], column, value, other);
      assert Put(row, column, value)[1..] == Put(row[1..], column, value);
    }
  }

  lemma {:induction false} PutGetIsSame(row: Row, column: string)
    requires Get(row, column) != Null
    ensures Put(row, column, Get(row, column)) == row
  {
    if row[0].key == column {
      assert row == [row[0]] + row[1..];
    } else {
      PutGetIsSame(row[1..], column);
      assert row == [row[0]] + row[1..];
    }
  }

  function LowerChar(c: char): char {
    if 'A' <= c <= 'Z' then c - 'A' + 'a' else c
  }

  function Lower(s: string): (r: string)
    ensures |r| == |s|
  {
    seq(|s|, i requires 0 <= i < |s| => LowerChar(s[i]))
  }

  /** An id as it is compared: without regard to case; a value that is not a non-empty text names nothing. */
  function KeyOf(v: Json): Option<string> {
    if v.Str? && v.s != "" then Some(Lower(v.s)) else None
  }

  /** `<` on strings: by the first character that differs, a prefix before what extends it. */
  predicate Less(a: string, b: string) {
    if b == "" then false
    else if a == "" then true
    else if a[0] != b[0] then a[0] < b[0]
    else Less(a[1..], b[1..])
  }

  lemma {:induction false} LessIsTotal(a: string, b: string)
    ensures a == b || Less(a, b) || Less(b, a)
    ensures !(Less(a, b) && Less(b, a))
    ensures !Less(a, a)
  {
    if a != "" && b != "" {
      LessIsTotal(a[1..], b[1..]);
      LessIsTotal(a[1..], a[1..]);
      if a[0] == b[0] && a[1..] == b[1..] {
        assert a == [a[0]] + a[1..] == [b[0]] + b[1..] == b;
      }
    } else if a != "" {
      LessIsTotal(a[1..], a[1..]);
    }
  }

  lemma {:induction false} LessIsTransitive(a: string, b: string, c: string)
    requires Less(a, b) && Less(b, c)
    ensures Less(a, c)
  {
    if a != "" && a[0] == b[0] == c[0] {
      LessIsTransitive(a[1..], b[1..], c[1..]);
    }
  }

  /** No element twice. */
  ghost predicate Distinct<T>(s: seq<T>) {
    forall i, j :: 0 <= i < j < |s| ==> s[i] != s[j]
  }

  lemma DistinctCounts<T>(s: seq<T>)
    requires Distinct(s)
    ensures forall x :: multiset(s)[x] == if x in s then 1 else 0
  {
    if s != [] {
      var front := s[..|s| - 1];
      DistinctCounts(front);
      assert s == front + [s[|s| - 1]];
    }
  }

  /** Two lists without repeats that hold the same elements are the same up to order. */
  lemma DistinctSameElements<T>(s: seq<T>, t: seq<T>)
    requires Distinct(s) && Distinct(t)
    requires forall x :: x in s <==> x in t
    ensures multiset(s) == multiset(t)
  {
    DistinctCounts(s);
    DistinctCounts(t);
  }
}

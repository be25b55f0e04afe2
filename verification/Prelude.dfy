/** Failure values, bytes and small sequence facts shared by every component: options and results, rows of a
    table found by key and counted, reads of a file at a cursor, Latin-1 text and its stripping, numbers of
    any width and whole numbers of units. Nothing here models one file of the program by itself. */
module Prelude {

  datatype Option<+T> = None | Some(value: T)

  datatype Result<+R, +E> = Success(value: R) | Failure(error: E)

  type Byte = b: int | 0 <= b < 256

  type Bytes = seq<Byte>

  predicate Distinct<T(==)>(xs: seq<T>) {
    forall i, j :: 0 <= i < j < |xs| ==> xs[i] != xs[j]
  }

  function Elements<T>(xs: seq<T>): set<T> {
    set x | x in xs
  }

  lemma Regroup<T>(a: seq<T>, b: seq<T>, c: seq<T>)
    ensures a + (b + c) == (a + b) + c
  {
  }

  // ----- Rows of a table

  /** The row with a given key, as SELECT ... WHERE key = ? finds it. */
  function Find<T>(key: T -> string, rows: seq<T>, id: string): (r: Option<nat>)
    ensures r.Some? ==> r.value < |rows| && key(rows[r.value]) == id
    ensures r.None? <==> forall i :: 0 <= i < |rows| ==> key(rows[i]) != id
  {
    if rows == [] then None
    else if key(rows[|rows| - 1]) == id then Some(|rows| - 1)
    else Find(key, rows[..|rows| - 1], id)
  }

  function Count<T>(holds: T -> bool, rows: seq<T>): nat {
    if rows == [] then 0
    else Count(holds, rows[..|rows| - 1]) + if holds(rows[|rows| - 1]) then 1 else 0
  }

  lemma CountMore<T>(holds: T -> bool, rows: seq<T>, x: T)
    ensures Count(holds, rows + [x]) == Count(holds, rows) + if holds(x) then 1 else 0
  {
    assert (rows + [x])[..|rows|] == rows;
  }

  lemma {:induction false} CountUpdate<T>(holds: T -> bool, rows: seq<T>, i: nat, x: T)
    requires i < |rows|
    ensures Count(holds, rows[i := x]) + (if holds(rows[i]) then 1 else 0)
      == Count(holds, rows) + if holds(x) then 1 else 0
  {
    var rest := rows[..|rows| - 1];
    if i < |rest| {
      CountUpdate(holds, rest, i, x);
      assert rows[i := x][..|rest|] == rest[i := x];
    } else {
      assert rows[i := x][..|rest|] == rest;
    }
  }

  // ----- Files

  /** What a file returns for read(n) at a cursor: fewer bytes only at its end. */
  function ReadAt(file: Bytes, pos: nat, n: nat): (block: Bytes)
    ensures |block| <= n
    ensures pos + n <= |file| ==> block == file[pos..pos + n]
  {
    if pos >= |file| then []
    else if pos + n <= |file| then file[pos..pos + n]
    else file[pos..]
  }

  // ----- Text whose characters are bytes (Latin-1)

  function Ascii(text: string): Bytes {
    seq(|text|, i requires 0 <= i < |text| => if text[i] as int < 128 then text[i] as int else 63)
  }

  /** str.strip() on Latin-1 text. */
  predicate IsSpace(b: Byte) {
    9 <= b <= 13 || 28 <= b <= 32 || b == 0x85 || b == 0xA0
  }

  function Strip(text: Bytes): Bytes {
    if text == [] then []
    else if IsSpace(text[0]) then Strip(text[1..])
    else if IsSpace(text[|text| - 1]) then Strip(text[..|text| - 1])
    else text
  }

  /** Text that starts and ends with something other than a space is not stripped. */
  lemma FirmIsStripped(text: Bytes)
    requires text != [] && !IsSpace(text[0]) && !IsSpace(text[|text| - 1])
    ensures Strip(text) == text
  {
  }

  function FirstIndex(text: Bytes, b: Byte): (cut: nat)
    requires b in text
    ensures cut < |text| && text[cut] == b && forall k :: 0 <= k < cut ==> text[k] != b
  {
    if text[0] == b then 0 else 1 + FirstIndex(text[1..], b)
  }

  // ----- Numbers

  /** Little-endian unsigned value of any width. */
  function LittleEndian(raw: Bytes): nat {
    if raw == [] then 0 else raw[0] + 256 * LittleEndian(raw[1..])
  }

  /** Quotient and remainder are unique. */
  lemma Remainder(x: int, m: int, q: int, r: int)
    requires m > 0 && x == m * q + r && 0 <= r < m
    ensures x % m == r && x / m == q
  {
    var q' := x / m;
    assert m * (q - q') == x % m - r && m * (q' - q) == r - x % m;
    if q > q' {
      AtLeastOnce(m, q - q');
    }
    if q < q' {
      AtLeastOnce(m, q' - q);
    }
  }

  lemma AtLeastOnce(m: int, k: int)
    requires m > 0 && k > 0
    ensures m * k >= m
  {
  }

  /** n is a whole number of units of m. */
  predicate Aligned(n: nat, m: nat)
    requires m > 0
  {
    n == 0 || (n >= m && Aligned(n - m, m))
  }

  lemma {:induction false} AlignedIsDivisible(n: nat, m: nat)
    requires m > 0
    ensures Aligned(n, m) <==> n % m == 0
    ensures Aligned(n, m) ==> m * (n / m) == n
  {
    if n >= m {
      AlignedIsDivisible(n - m, m);
      Remainder(n, m, (n - m) / m + 1, (n - m) % m);
    }
  }

  lemma {:induction false} AlignedSum(a: nat, b: nat, m: nat)
    requires m > 0 && Aligned(a, m) && Aligned(b, m)
    ensures Aligned(a + b, m)
  {
    if a > 0 {
      AlignedSum(a - m, b, m);
    }
  }

  lemma {:induction false} AlignedDifference(a: nat, b: nat, m: nat)
    requires m > 0 && Aligned(a, m) && Aligned(b, m) && b <= a
    ensures Aligned(a - b, m)
  {
    if b > 0 {
      AlignedDifference(a - m, b - m, m);
    }
  }
}

/** Streaming XLSX scanning and cell-reference arithmetic. */
module XlsxStream {
  import opened Wrappers
  import opened Sequences
  import Text

  // ---------- the declaration scan ----------

  newtype byte = x: int | 0 <= x < 256

  type Bytes = seq<byte>

  function UpperByte(b: byte): byte {
    if 97 <= b <= 122 then b - 32 else b
  }

  /** Bytes agree in upper case exactly when they are equal or the two cases of one letter. */
  lemma {:induction false} CaseOnly(x: byte, y: byte)
    ensures UpperByte(x) == UpperByte(y) <==>
            x == y || (65 <= x <= 90 && y as int == x as int + 32) || (65 <= y <= 90 && x as int == y as int + 32)
  {
  }

  /** `bytes.upper()` */
  function Upper(s: Bytes): (r: Bytes)
    ensures |r| == |s|
  {
    Map(UpperByte, s)
  }

  function Flatten(chunks: seq<Bytes>): Bytes {
    if chunks == [] then [] else Flatten(chunks[..|chunks| - 1]) + chunks[|chunks| - 1]
  }

  function Longest(markers: seq<Bytes>): (n: nat)
    ensures forall m | m in markers :: |m| <= n
    ensures n == 0 || exists m | m in markers :: |m| == n
  {
    if markers == [] then 0
    else
      assert markers == [markers[0]] + markers[1..];
      var n := Longest(markers[1..]);
      if n < |markers[0]| then |markers[0]| else n
  }

  predicate Searchable(markers: seq<Bytes>) {
    markers != [] && forall m | m in markers :: m != []
  }

  /** One byte less than the longest marker. */
  function Overlap(markers: seq<Bytes>): (n: nat)
    requires Searchable(markers)
    ensures n + 1 == Longest(markers)
  {
    assert markers[0] in markers;
    Longest(markers) - 1
  }

  /** `s[-n:]`, which is all of `s` when `n` is zero. */
  function LastBytes(s: Bytes, n: nat): Bytes {
    if n == 0 || |s| <= n then s else s[|s| - n..]
  }

  /** The end of the stream, never longer than the bound. */
  predicate Retains(stream: Bytes, bound: nat, tail: Bytes) {
    && |tail| <= bound && |tail| <= |stream| && (|tail| == bound || |tail| == |stream|)
    && stream[|stream| - |tail|..] == tail
  }

  /** Some marker occurs in the whole upper-cased stream. */
  predicate Declares(markers: seq<Bytes>, stream: Bytes) {
    exists m | m in markers :: Text.Contains(Upper(stream), m)
  }

  lemma UpperConcat(a: Bytes, b: Bytes)
    ensures Upper(a + b) == Upper(a) + Upper(b)
    ensures Upper(Upper(a)) == Upper(a)
  {
  }

  lemma {:induction false} TailStep(a: Bytes, b: Bytes, n: nat)
    ensures LastBytes(LastBytes(a, n) + b, n) == LastBytes(a + b, n)
  {
  }

  lemma {:induction false} ContainsWithin<T>(a: seq<T>, s: seq<T>, b: seq<T>, m: seq<T>)
    requires Text.Contains(s, m)
    ensures Text.Contains(a + s + b, m)
  {
    var i: nat :| i <= |s| && Text.OccursAt(s, i, m);
    var whole := a + s + b;
    assert whole[|a| + i..|a| + i + |m|] == s[i..i + |m|];
    assert Text.OccursAt(whole, |a| + i, m);
  }

  /** A short marker that is new in `a + b` lies within the last bytes of `a` followed by `b`. */
  lemma {:induction false} TailSuffices(a: Bytes, b: Bytes, n: nat, m: Bytes)
    requires |m| <= n + 1
    ensures Text.Contains(a + b, m) <==> Text.Contains(a, m) || Text.Contains(LastBytes(a, n) + b, m)
  {
    var tail := LastBytes(a, n);
    var cut := |a| - |tail|;
    assert a + b == a[..cut] + (tail + b) + [];
    assert a + b == [] + a + b;
    if Text.Contains(tail + b, m) { ContainsWithin(a[..cut], tail + b, [], m); }
    if Text.Contains(a, m) { ContainsWithin([], a, b, m); }
    if Text.Contains(a + b, m) { NewInTail(a, b, cut, m); }
  }

  /** What occurs in `a + b` either ends within `a` or begins after the cut. */
  lemma {:induction false} NewInTail(a: Bytes, b: Bytes, cut: nat, m: Bytes)
    requires cut <= |a| && (|m| <= |a| - cut + 1 || cut == 0) && Text.Contains(a + b, m)
    ensures Text.Contains(a, m) || Text.Contains(a[cut..] + b, m)
  {
    var i: nat :| i <= |a + b| && Text.OccursAt(a + b, i, m);
    if i + |m| <= |a| {
      assert a[i..i + |m|] == (a + b)[i..i + |m|];
      assert Text.OccursAt(a, i, m);
    } else {
      assert (a[cut..] + b)[i - cut..i - cut + |m|] == (a + b)[i..i + |m|];
      assert Text.OccursAt(a[cut..] + b, i - cut, m);
    }
  }

  /** One chunk: the candidate holds a marker exactly when the stream so far first does. */
  lemma {:induction false} ScanStep(markers: seq<Bytes>, consumed: Bytes, chunk: Bytes, overlap: nat)
    requires overlap + 1 == Longest(markers) && !Declares(markers, consumed)
    ensures var candidate := Upper(LastBytes(Upper(consumed), overlap) + chunk);
      && (Declares(markers, consumed + chunk) <==> exists m | m in markers :: Text.Contains(candidate, m))
      && LastBytes(candidate, overlap) == LastBytes(Upper(consumed + chunk), overlap)
  {
    var tail := LastBytes(Upper(consumed), overlap);
    UpperConcat(consumed, chunk);
    UpperConcat(tail, chunk);
    assert Upper(tail) == tail by {
      assert forall i | 0 <= i < |tail| :: UpperByte(tail[i]) == tail[i];
    }
    TailStep(Upper(consumed), Upper(chunk), overlap);
    forall m | m in markers
      ensures Text.Contains(Upper(consumed + chunk), m) <==> Text.Contains(tail + Upper(chunk), m)
    {
      TailSuffices(Upper(consumed), Upper(chunk), overlap, m);
    }
  }

  lemma {:induction false} DeclaresLater(markers: seq<Bytes>, a: Bytes, b: Bytes)
    requires Declares(markers, a)
    ensures Declares(markers, a + b)
  {
    var m :| m in markers && Text.Contains(Upper(a), m);
    UpperConcat(a, b);
    assert Upper(a) + Upper(b) == [] + Upper(a) + Upper(b);
    ContainsWithin([], Upper(a), Upper(b), m);
  }

  lemma {:induction false} FlattenConcat(a: seq<Bytes>, b: seq<Bytes>)
    ensures Flatten(a + b) == Flatten(a) + Flatten(b)
  {
    if b == [] {
      assert a + b == a;
    } else {
      assert (a + b)[..|a + b| - 1] == a + b[..|b| - 1];
      FlattenConcat(a, b[..|b| - 1]);
    }
  }

  lemma {:induction false} ChunkStep(markers: seq<Bytes>, chunks: seq<Bytes>, i: nat)
    requires i < |chunks|
    ensures Flatten(chunks[..i + 1]) == Flatten(chunks[..i]) + chunks[i]
    ensures Declares(markers, Flatten(chunks[..i + 1])) ==> Declares(markers, Flatten(chunks))
  {
    assert chunks[..i + 1][..i] == chunks[..i];
    FlattenConcat(chunks[..i + 1], chunks[i + 1..]);
    assert chunks == chunks[..i + 1] + chunks[i + 1..];
    if Declares(markers, Flatten(chunks[..i + 1])) {
      DeclaresLater(markers, Flatten(chunks[..i + 1]), Flatten(chunks[i + 1..]));
    }
  }

  /** `_reject_xml_declarations`, over any way the stream hands out its bytes. */
  method Scan(markers: seq<Bytes>, chunks: seq<Bytes>) returns (rejected: bool, tail: Bytes)
    requires Searchable(markers)
    requires forall c | c in chunks :: c != []
    ensures rejected <==> Declares(markers, Flatten(chunks))
    ensures !rejected ==> tail == LastBytes(Upper(Flatten(chunks)), Overlap(markers))
    ensures !rejected && Overlap(markers) > 0 ==> Retains(Upper(Flatten(chunks)), Overlap(markers), tail)
  {
    var overlap := Overlap(markers);
    tail := [];
    for i := 0 to |chunks|
      invariant !Declares(markers, Flatten(chunks[..i]))
      invariant tail == LastBytes(Upper(Flatten(chunks[..i])), overlap)
    {
      ScanStep(markers, Flatten(chunks[..i]), chunks[i], overlap);
      ChunkStep(markers, chunks, i);
      var candidate := Upper(tail + chunks[i]);
      if exists m | m in markers :: Text.Contains(candidate, m) { return true, tail; }
      tail := LastBytes(candidate, overlap);
    }
    assert chunks[..|chunks|] == chunks;
    rejected := false;
  }

  /** An encoding of ASCII text that surrounds every byte with zero bytes. */
  datatype Encoding = Encoding(before: nat, after: nat)

  /** ASCII, then UTF-16 and UTF-32 in both byte orders. */
  const Encodings: seq<Encoding> := [Encoding(0, 0), Encoding(0, 1), Encoding(1, 0), Encoding(0, 3), Encoding(3, 0)]

  function Zeros(n: nat): Bytes {
    seq(n, _ => 0)
  }

  function Encode(e: Encoding, text: Bytes): (r: Bytes)
    ensures |r| == |text| * (e.before + 1 + e.after)
  {
    if text == [] then [] else Encode(e, text[..|text| - 1]) + Zeros(e.before) + [text[|text| - 1]] + Zeros(e.after)
  }

  /** Every character of the text at its place, and zero bytes around it. */
  lemma {:induction false} EncodedBytes(e: Encoding, text: Bytes, k: nat, j: nat)
    requires k < |text| && j < e.before + 1 + e.after
    ensures k * (e.before + 1 + e.after) + j < |Encode(e, text)|
    ensures Encode(e, text)[k * (e.before + 1 + e.after) + j] == if j == e.before then text[k] else 0
  {
    var width, last := e.before + 1 + e.after, |text| - 1;
    var init := text[..last];
    assert |Encode(e, text)| == last * width + width;
    if k < last {
      EncodedBytes(e, init, k, j);
      assert Encode(e, text)[..|Encode(e, init)|] == Encode(e, init);
    } else {
      assert |Encode(e, init)| == k * width;
    }
  }

  /** `<!DOCTYPE` */
  const Doctype: Bytes := [60, 33, 68, 79, 67, 84, 89, 80, 69]

  /** `<!ENTITY` */
  const Entity: Bytes := [60, 33, 69, 78, 84, 73, 84, 89]

  function EncodeAll(text: Bytes): (r: seq<Bytes>)
    ensures |r| == 5 && forall k | 0 <= k < 5 :: r[k] == Encode(Encodings[k], text)
  {
    Map((e: Encoding) => Encode(e, text), Encodings)
  }

  /** `_XML_DECLARATION_MARKERS` */
  function Markers(): seq<Bytes> {
    EncodeAll(Doctype) + EncodeAll(Entity)
  }

  lemma {:induction false} EncodedLengths(text: Bytes)
    ensures forall m | m in EncodeAll(text) :: |text| <= |m| <= 4 * |text|
    ensures |EncodeAll(text)[3]| == 4 * |text|
  {
    var all := EncodeAll(text);
    assert |all[0]| == |text| && |all[1]| == 2 * |text| && |all[2]| == 2 * |text|;
    assert |all[3]| == 4 * |text| && |all[4]| == 4 * |text|;
  }

  lemma {:induction false} LongestOfBoth(a: seq<Bytes>, b: seq<Bytes>, n: nat)
    requires forall m | m in a + b :: 0 < |m| <= n
    requires exists m | m in a :: |m| == n
    ensures Searchable(a + b) && Overlap(a + b) == n - 1
  {
    var m :| m in a && |m| == n;
    assert m in a + b;
  }

  /** The scan keeps 35 bytes between chunks. */
  lemma {:induction false} MarkersOverlap()
    ensures Searchable(Markers()) && Overlap(Markers()) == 35
  {
    OverlapOf(Doctype, Entity);
  }

  lemma {:induction false} OverlapOf(a: Bytes, b: Bytes)
    requires |a| == 9 && |b| == 8
    ensures Searchable(EncodeAll(a) + EncodeAll(b)) && Overlap(EncodeAll(a) + EncodeAll(b)) == 35
  {
    EncodedLengths(a);
    EncodedLengths(b);
    assert EncodeAll(a)[3] in EncodeAll(a);
    LongestOfBoth(EncodeAll(a), EncodeAll(b), 36);
  }

  lemma {:induction false} UpperEncode(e: Encoding, text: Bytes)
    ensures Upper(Encode(e, text)) == Encode(e, Upper(text))
  {
    if text != [] {
      UpperEncode(e, text[..|text| - 1]);
      var upper := Upper(text);
      assert upper[..|upper| - 1] == Upper(text[..|text| - 1]);
    }
  }

  lemma {:induction false} EncodedIn(e: Encoding, text: Bytes)
    requires e in Encodings
    ensures Encode(e, text) in EncodeAll(text)
  {
    var k :| 0 <= k < 5 && Encodings[k] == e;
    assert EncodeAll(text)[k] == Encode(e, text);
  }

  lemma {:induction false} SpelledFound(markers: seq<Bytes>, e: Encoding, text: Bytes, head: Bytes, rest: Bytes)
    requires Encode(e, Upper(text)) in markers
    ensures Declares(markers, head + Encode(e, text) + rest)
  {
    var marker := Encode(e, Upper(text));
    UpperEncode(e, text);
    assert Text.OccursAt(marker, 0, marker);
    UpperConcat(head, Encode(e, text));
    UpperConcat(head + Encode(e, text), rest);
    ContainsWithin(Upper(head), marker, Upper(rest), marker);
  }

  /** A declaration in any letter case and any of the five encodings is found, whatever surrounds it. */
  lemma {:induction false} DeclarationFound(e: Encoding, text: Bytes, head: Bytes, rest: Bytes)
    requires e in Encodings && (Upper(text) == Doctype || Upper(text) == Entity)
    ensures Declares(Markers(), head + Encode(e, text) + rest)
  {
    EncodedIn(e, Upper(text));
    SpelledFound(Markers(), e, text, head, rest);
  }

  // ---------- column letters and numbers ----------

  const MaxColumn: nat := 16384

  const MaxRow: nat := 1048576

  predicate Letter(c: char) {
    'A' <= c <= 'Z'
  }

  predicate AllLetters(s: string) {
    forall c | c in s :: Letter(c)
  }

  function LetterValue(c: char): (v: nat)
    requires Letter(c)
    ensures 1 <= v <= 26
  {
    c as int - 'A' as int + 1
  }

  /** The number spelled by column letters. */
  function Number(s: string): nat
    requires AllLetters(s)
  {
    if s == "" then 0 else Number(s[..|s| - 1]) * 26 + LetterValue(s[|s| - 1])
  }

  /** The letters that spell a column number. */
  function Letters(n: nat): (s: string)
    ensures AllLetters(s) && (s == "" <==> n == 0)
  {
    if n == 0 then "" else Letters((n - 1) / 26) + [('A' as int + (n - 1) % 26) as char]
  }

  lemma {:induction false} NumberOfLetters(n: nat)
    ensures Number(Letters(n)) == n
  {
    if n != 0 {
      NumberOfLetters((n - 1) / 26);
      var s := Letters(n);
      assert s[..|s| - 1] == Letters((n - 1) / 26);
    }
  }

  lemma {:induction false} DigitStep(n: nat, v: nat)
    requires 1 <= v <= 26
    ensures (n * 26 + v - 1) / 26 == n && (n * 26 + v - 1) % 26 == v - 1
  {
  }

  lemma {:induction false} LettersOfNumber(s: string)
    requires AllLetters(s)
    ensures Letters(Number(s)) == s
  {
    if s != "" {
      var init, v := s[..|s| - 1], LetterValue(s[|s| - 1]);
      LettersOfNumber(init);
      DigitStep(Number(init), v);
      assert s == init + [s[|s| - 1]];
    }
  }

  /** Longer names are later columns. */
  lemma {:induction false} LongerIsLater(s: string, t: string)
    requires AllLetters(s) && AllLetters(t) && |s| < |t|
    ensures Number(s) < Number(t)
  {
    if s != "" {
      LongerIsLater(s[..|s| - 1], t[..|t| - 1]);
    }
  }

  lemma {:induction false} StrLtLast(s: string, t: string)
    requires |s| == |t| > 0 && Text.StrLt(s, t)
    ensures var n := |s| - 1; Text.StrLt(s[..n], t[..n]) || (s[..n] == t[..n] && s[n] < t[n])
  {
    var n := |s| - 1;
    if n > 0 && s[0] == t[0] {
      StrLtLast(s[1..], t[1..]);
      assert s[1..][..n - 1] == s[..n][1..] && t[1..][..n - 1] == t[..n][1..];
      assert s[..n] == [s[0]] + s[..n][1..] && t[..n] == [t[0]] + t[..n][1..];
    }
  }

  /** Names of one length are numbered alphabetically: with the two round trips, columns run A to Z, AA to ZZ, and on. */
  lemma {:induction false} AlphabeticIsLater(s: string, t: string)
    requires AllLetters(s) && AllLetters(t) && |s| == |t| && Text.StrLt(s, t)
    ensures Number(s) < Number(t)
  {
    StrLtLast(s, t);
    var n := |s| - 1;
    if Text.StrLt(s[..n], t[..n]) {
      AlphabeticIsLater(s[..n], t[..n]);
    }
  }

  lemma {:induction false} PrefixNumber(s: string, i: nat)
    requires AllLetters(s) && i <= |s|
    ensures Number(s[..i]) <= Number(s)
  {
    if i == |s| {
      assert s[..i] == s;
    } else {
      PrefixNumber(s[..|s| - 1], i);
      assert s[..|s| - 1][..i] == s[..i];
    }
  }

  // ---------- row numbers ----------

  predicate Digit(c: char) {
    '0' <= c <= '9'
  }

  /** `[1-9][0-9]*` */
  predicate Positive(s: string) {
    s != "" && s[0] != '0' && forall c | c in s :: Digit(c)
  }

  /** `int(s)` */
  function Value(s: string): nat
    requires forall c | c in s :: Digit(c)
  {
    if s == "" then 0
    else
      assert Digit(s[|s| - 1]);
      Value(s[..|s| - 1]) * 10 + (s[|s| - 1] as int - '0' as int)
  }

  /** The decimal numeral of a positive number. */
  function Decimal(n: nat): (s: string)
    ensures forall c | c in s :: Digit(c)
  {
    if n == 0 then "" else Decimal(n / 10) + [('0' as int + n % 10) as char]
  }

  lemma {:induction false} ValueOfDecimal(n: nat)
    ensures Value(Decimal(n)) == n
    ensures n > 0 ==> Positive(Decimal(n))
  {
    if n != 0 {
      ValueOfDecimal(n / 10);
      var s := Decimal(n);
      assert s[..|s| - 1] == Decimal(n / 10);
    }
  }

  lemma {:induction false} DecimalOfValue(s: string)
    requires Positive(s)
    ensures Value(s) > 0 && Decimal(Value(s)) == s
  {
    var init, last := s[..|s| - 1], s[|s| - 1];
    assert s == init + [last];
    if init != "" {
      DecimalOfValue(init);
    }
    assert Digit(last) && Digit(s[0]);
    assert Value(s) / 10 == Value(init) && Value(s) % 10 == last as int - '0' as int;
  }

  lemma {:induction false} DecimalLength(n: nat, k: nat)
    requires n < Power(10, k)
    ensures |Decimal(n)| <= k
  {
    if n != 0 && k > 0 {
      DecimalLength(n / 10, k - 1);
    }
  }

  function Power(b: nat, k: nat): nat {
    if k == 0 then 1 else b * Power(b, k - 1)
  }

  // ---------- cell references ----------

  /** The reference of the cell in column `n` and row `row`. */
  function CellName(n: nat, row: nat): string {
    Letters(n) + Decimal(row)
  }

  predicate InBounds(n: nat, row: int) {
    1 <= n <= MaxColumn && 1 <= row <= MaxRow
  }

  /** The longest run of capital letters at the start. */
  function LetterRun(s: string): (n: nat)
    ensures n <= |s| && AllLetters(s[..n])
    ensures n < |s| ==> !Letter(s[n])
  {
    if s == "" || !Letter(s[0]) then 0
    else
      var n := LetterRun(s[1..]);
      assert s[..n + 1] == [s[0]] + s[1..][..n];
      n + 1
  }

  lemma {:induction false} LetterRunOf(s: string, t: string)
    requires AllLetters(s) && (t == "" || !Letter(t[0]))
    ensures LetterRun(s + t) == |s|
  {
    if s == "" {
      assert s + t == t;
    } else {
      assert (s + t)[1..] == s[1..] + t;
      LetterRunOf(s[1..], t);
    }
  }

  /** The two groups of the reference pattern, read back from a name. */
  lemma {:induction false} NameParts(n: nat, row: nat)
    requires n > 0 && row > 0
    ensures var name := CellName(n, row); var k := LetterRun(name);
      k > 0 && name[..k] == Letters(n) && name[k..] == Decimal(row)
  {
    ValueOfDecimal(row);
    assert Digit(Decimal(row)[0]);
    LetterRunOf(Letters(n), Decimal(row));
  }

  /** The ten-character guard only turns away references that are out of bounds anyway. */
  lemma {:induction false} NameLength(n: nat, row: nat)
    requires InBounds(n, row)
    ensures |CellName(n, row)| <= 10
  {
    DecimalLength(row, 7);
    NumberOfLetters(n);
    if |Letters(n)| > 3 {
      LongerIsLater("ZZZ", Letters(n));
    }
  }

  /** The letter loop of `_column_number`: checking the bound at every letter is checking the final number. */
  method BoundedNumber(letters: string) returns (r: Option<nat>)
    requires AllLetters(letters)
    ensures r == if Number(letters) <= MaxColumn then Some(Number(letters)) else None
  {
    var number := 0;
    for i := 0 to |letters|
      invariant number == Number(letters[..i]) <= MaxColumn
    {
      assert letters[..i + 1][..i] == letters[..i];
      number := number * 26 + LetterValue(letters[i]);
      PrefixNumber(letters, i + 1);
      if number > MaxColumn { return None; }
    }
    assert letters[..|letters|] == letters;
    return Some(number);
  }

  /** What the checks see of the reference of a cell. */
  lemma {:induction false} NameAccepted(n: nat, row: nat)
    requires InBounds(n, row)
    ensures var name := CellName(n, row); var k := LetterRun(name);
      && |name| <= 10 && k > 0 && Number(name[..k]) == n
      && name[k..] == Decimal(row) && Positive(Decimal(row)) && Value(Decimal(row)) == row
  {
    NameLength(n, row);
    NameParts(n, row);
    NumberOfLetters(n);
    ValueOfDecimal(row);
  }

  /** `_column_number`: exactly the references of cells within bounds and in the given row. */
  method ColumnNumber(reference: string, row: int) returns (r: Option<nat>)
    ensures r.Some? ==> InBounds(r.value, row) && reference == CellName(r.value, row)
    ensures r.None? ==> forall n: nat | InBounds(n, row) :: reference != CellName(n, row)
  {
    forall n: nat | InBounds(n, row) && reference == CellName(n, row)
      ensures |reference| <= 10 && LetterRun(reference) > 0 && Number(reference[..LetterRun(reference)]) == n
      ensures Positive(reference[LetterRun(reference)..]) && Value(reference[LetterRun(reference)..]) == row
    {
      NameAccepted(n, row);
    }
    if |reference| > 10 { return None; }
    var k := LetterRun(reference);
    var letters, digits := reference[..k], reference[k..];
    if k == 0 || !Positive(digits) { return None; }
    if Value(digits) > MaxRow || Value(digits) != row { return None; }
    r := BoundedNumber(letters);
    if r.Some? {
      LettersOfNumber(letters);
      DecimalOfValue(digits);
      assert reference == letters + digits;
    }
  }

  /** `_column_index` of the independent reader, without bounds. */
  method ColumnIndex(reference: string) returns (r: Option<nat>)
    ensures r.None? <==> reference == "" || !Letter(reference[0])
    ensures r.Some? ==> r.value + 1 == Number(reference[..LetterRun(reference)])
    ensures forall n: nat, row: nat | n > 0 && row > 0 && reference == CellName(n, row) :: r == Some(n - 1)
  {
    forall n: nat, row: nat | n > 0 && row > 0 && reference == CellName(n, row)
      ensures LetterRun(reference) > 0 && Number(reference[..LetterRun(reference)]) == n
    {
      NameParts(n, row);
      NumberOfLetters(n);
    }
    var k := LetterRun(reference);
    if k == 0 { return None; }
    var letters := reference[..k];
    var value := 0;
    for i := 0 to k
      invariant value == Number(letters[..i])
      invariant i > 0 ==> value > 0
    {
      assert letters[..i + 1][..i] == letters[..i];
      value := value * 26 + LetterValue(letters[i]);
    }
    assert letters[..k] == letters;
    return Some(value - 1);
  }

  /** Taking off the last letter moves it to the front of the reversed rest. */
  lemma {:induction false} LetterStep(n: nat, letters: string, letter: char)
    requires n > 0 && letter == ('A' as int + (n - 1) % 26) as char
    ensures Letters(n) + Reversed(letters) == Letters((n - 1) / 26) + Reversed(letters + [letter])
  {
    ReversedSnoc(letters, letter);
    LetterMoves(Letters((n - 1) / 26), letter, Reversed(letters));
  }

  lemma {:induction false} LetterMoves(head: string, letter: char, rest: string)
    ensures (head + [letter]) + rest == head + ([letter] + rest)
  {
  }

  /** `_column_letter` */
  method ColumnLetter(number: nat) returns (name: string)
    ensures name == Letters(number)
    ensures AllLetters(name) && Number(name) == number
  {
    var letters := "";
    var remaining := number;
    while remaining != 0
      invariant Letters(number) == Letters(remaining) + Reversed(letters)
    {
      var remainder := (remaining - 1) % 26;
      var letter := ('A' as int + remainder) as char;
      LetterStep(remaining, letters, letter);
      letters := letters + [letter];
      remaining := (remaining - 1) / 26;
    }
    NumberOfLetters(number);
    return Reversed(letters);
  }
}

/** The few string operations the pipeline relies on: substring tests, joining and splitting,
    and Python's code-point ordering of strings. */
module Text {

  predicate OccursAt<T(==)>(s: seq<T>, i: nat, part: seq<T>) {
    i + |part| <= |s| && s[i..i + |part|] == part
  }

  /** `part in s` */
  predicate Contains<T(==)>(s: seq<T>, part: seq<T>) {
    exists i: nat | i <= |s| :: OccursAt(s, i, part)
  }

  /** `s.startswith(prefix)` */
  predicate StartsWith(s: string, prefix: string) {
    prefix <= s
  }

  /** `s.endswith(suffix)` */
  predicate EndsWith(s: string, suffix: string) {
    |suffix| <= |s| && s[|s| - |suffix|..] == suffix
  }

  /** `separator.join(parts)` */
  function Join(separator: string, parts: seq<string>): string {
    if |parts| == 0 then ""
    else if |parts| == 1 then parts[0]
    else parts[0] + separator + Join(separator, parts[1..])
  }

  /** `text.split(separator)` for a one-character separator. */
  function Split(separator: char, text: string): (parts: seq<string>)
    ensures |parts| > 0
    decreases |text|
  {
    var i := IndexOf(separator, text);
    if i == |text| then [text] else [text[..i]] + Split(separator, text[i + 1..])
  }

  /** The first position of `c`, or the length when it does not occur. */
  function IndexOf(c: char, text: string): (i: nat)
    ensures i <= |text| && c !in text[..i]
    ensures i < |text| ==> text[i] == c
  {
    if text == "" then 0
    else if text[0] == c then 0
    else
      assert text[1..][..IndexOf(c, text[1..])] == text[1..1 + IndexOf(c, text[1..])];
      1 + IndexOf(c, text[1..])
  }

  lemma {:induction false} IndexOfFirst(c: char, head: string, rest: string)
    requires c !in head
    ensures IndexOf(c, head + [c] + rest) == |head|
    ensures IndexOf(c, head) == |head|
  {
    if head != "" {
      assert (head + [c] + rest)[1..] == head[1..] + [c] + rest;
      IndexOfFirst(c, head[1..], rest);
    }
  }

  /** Splitting undoes joining when no part holds the separator. */
  lemma {:induction false} SplitJoin(separator: char, parts: seq<string>)
    requires |parts| > 0
    requires forall p | p in parts :: separator !in p
    ensures Split(separator, Join([separator], parts)) == parts
  {
    IndexOfFirst(separator, parts[0], "");
    if |parts| > 1 {
      var rest := Join([separator], parts[1..]);
      var text := Join([separator], parts);
      IndexOfFirst(separator, parts[0], rest);
      assert text == parts[0] + [separator] + rest;
      assert text[..|parts[0]|] == parts[0];
      assert text[|parts[0]| + 1..] == rest;
      SplitJoin(separator, parts[1..]);
      assert parts == [parts[0]] + parts[1..];
    }
  }

  /** Every joined line is a substring of the text. */
  lemma {:induction false} JoinContains(separator: string, parts: seq<string>, k: nat)
    requires k < |parts|
    ensures Contains(Join(separator, parts), parts[k])
  {
    var text := Join(separator, parts);
    if k == 0 {
      assert OccursAt(text, 0, parts[0]);
    } else {
      var rest := Join(separator, parts[1..]);
      JoinContains(separator, parts[1..], k - 1);
      var i: nat :| i <= |rest| && OccursAt(rest, i, parts[k]);
      var offset := |parts[0]| + |separator|;
      assert text[offset..] == rest;
      assert text[offset + i..offset + i + |parts[k]|] == rest[i..i + |parts[k]|];
      assert OccursAt(text, offset + i, parts[k]);
    }
  }

  /** Python orders strings by code points, a proper prefix first. */
  predicate StrLt(a: string, b: string) {
    if b == "" then false
    else if a == "" then true
    else if a[0] == b[0] then StrLt(a[1..], b[1..])
    else a[0] < b[0]
  }

  lemma {:induction false} StrLtTransitive(a: string, b: string, c: string)
    requires StrLt(a, b) && StrLt(b, c)
    ensures StrLt(a, c)
  {
    if a != "" && a[0] == b[0] && b[0] == c[0] {
      StrLtTransitive(a[1..], b[1..], c[1..]);
    }
  }

  lemma {:induction false} StrLtTrichotomy(a: string, b: string)
    ensures !(StrLt(a, b) && StrLt(b, a))
    ensures StrLt(a, b) || StrLt(b, a) <==> a != b
  {
    if a != "" && b != "" && a[0] == b[0] {
      StrLtTrichotomy(a[1..], b[1..]);
      assert a == [a[0]] + a[1..] && b == [b[0]] + b[1..];
    }
  }

  /** Lexicographic order of equally shaped rows of strings. */
  predicate RowLt(a: seq<string>, b: seq<string>) {
    if b == [] then false
    else if a == [] then true
    else if a[0] == b[0] then RowLt(a[1..], b[1..])
    else StrLt(a[0], b[0])
  }

  lemma {:induction false} RowLtTransitive(a: seq<string>, b: seq<string>, c: seq<string>)
    requires RowLt(a, b) && RowLt(b, c)
    ensures RowLt(a, c)
  {
    if a != [] && a[0] == b[0] && b[0] == c[0] {
      RowLtTransitive(a[1..], b[1..], c[1..]);
    } else if a != [] {
      StrLtTrichotomy(a[0], b[0]);
      StrLtTrichotomy(b[0], c[0]);
      if a[0] != b[0] && b[0] != c[0] {
        StrLtTransitive(a[0], b[0], c[0]);
        StrLtTrichotomy(a[0], c[0]);
      }
    }
  }

  lemma {:induction false} RowLtTrichotomy(a: seq<string>, b: seq<string>)
    ensures !(RowLt(a, b) && RowLt(b, a))
    ensures RowLt(a, b) || RowLt(b, a) <==> a != b
  {
    if a != [] && b != [] {
      if a[0] == b[0] {
        RowLtTrichotomy(a[1..], b[1..]);
        assert a == [a[0]] + a[1..] && b == [b[0]] + b[1..];
      } else {
        StrLtTrichotomy(a[0], b[0]);
      }
    }
  }
}

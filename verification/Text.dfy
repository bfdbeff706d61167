/** Strings as the program compares and trims them. */
module Text {
  import opened Sorting

  /** The order of Go's string comparison. */
  predicate Less(a: string, b: string) {
    if b == [] then false
    else if a == [] then true
    else if a[0] != b[0] then a[0] < b[0]
    else Less(a[1..], b[1..])
  }

  lemma LessIrreflexive(a: string)
    ensures !Less(a, a)
  {
  }

  lemma {:induction false} LessTotal(a: string, b: string)
    requires a != b
    ensures Less(a, b) || Less(b, a)
  {
    if a != [] && b != [] && a[0] == b[0] {
      assert a == [a[0]] + a[1..] && b == [b[0]] + b[1..];
      LessTotal(a[1..], b[1..]);
    }
  }

  lemma {:induction false} LessTransitive(a: string, b: string, c: string)
    requires Less(a, b) && Less(b, c)
    ensures Less(a, c)
  {
    if a != [] && a[0] == b[0] == c[0] {
      LessTransitive(a[1..], b[1..], c[1..]);
    }
  }

  lemma LessIsStrictTotal()
    ensures StrictTotal(Less)
  {
    forall a ensures !Less(a, a) { LessIrreflexive(a); }
    forall a, b | a != b ensures Less(a, b) || Less(b, a) { LessTotal(a, b); }
    forall a, b, c | Less(a, b) && Less(b, c) ensures Less(a, c) { LessTransitive(a, b, c); }
  }

  /** a ends, or has the smaller character, where the two first differ. */
  ghost predicate FirstBelow(a: string, b: string, n: nat) {
    n <= |a| && n < |b| && a[..n] == b[..n] && (n == |a| || a[n] < b[n])
  }

  /** The order is lexicographic: a shorter beginning comes first, otherwise the first difference decides. */
  lemma {:induction false} LessIsLexicographic(a: string, b: string)
    ensures Less(a, b) <==> exists n: nat :: FirstBelow(a, b, n)
  {
    if b == [] || a == [] || a[0] != b[0] {
      assert b != [] && (a == [] || a[0] < b[0]) ==> FirstBelow(a, b, 0);
      assert forall n: nat :: FirstBelow(a, b, n) && n > 0 ==> a[..n][0] == b[..n][0];
    } else {
      LessIsLexicographic(a[1..], b[1..]);
      if n: nat :| FirstBelow(a[1..], b[1..], n) {
        assert a[..n + 1] == [a[0]] + a[1..][..n] && b[..n + 1] == [b[0]] + b[1..][..n];
        assert FirstBelow(a, b, n + 1);
      }
      if n: nat :| FirstBelow(a, b, n) {
        assert n > 0 by {
          assert a[0] == b[0];
        }
        assert a[1..][..n - 1] == a[..n][1..] && b[1..][..n - 1] == b[..n][1..];
        assert FirstBelow(a[1..], b[1..], n - 1);
      }
    }
  }

  predicate HasPrefix(s: string, p: string) {
    |p| <= |s| && s[..|p|] == p
  }

  /** The white space of Unicode, as strings.TrimSpace drops it. */
  predicate IsSpace(c: char) {
    || '\t' <= c <= '\r' || c == ' ' || c == '\U{0085}' || c == '\U{00A0}' || c == '\U{1680}'
    || '\U{2000}' <= c <= '\U{200A}' || c == '\U{2028}' || c == '\U{2029}' || c == '\U{202F}'
    || c == '\U{205F}' || c == '\U{3000}'
  }

  function TrimLeft(s: string): string {
    if s != [] && IsSpace(s[0]) then TrimLeft(s[1..]) else s
  }

  function TrimRight(s: string): string {
    if s != [] && IsSpace(s[|s| - 1]) then TrimRight(s[..|s| - 1]) else s
  }

  function Trim(s: string): string {
    TrimRight(TrimLeft(s))
  }

  /** The code points that Unicode calls white space. */
  predicate White(code: int) {
    || 9 <= code <= 13 || 0x2000 <= code <= 0x200A
    || code in {0x20, 0x85, 0xA0, 0x1680, 0x2028, 0x2029, 0x202F, 0x205F, 0x3000}
  }

  ghost predicate AllWhite(s: string) {
    forall i :: 0 <= i < |s| ==> White(s[i] as int)
  }

  lemma {:induction false} TrimmedLeft(s: string) returns (cut: string)
    ensures s == cut + TrimLeft(s) && AllWhite(cut)
    ensures TrimLeft(s) != [] ==> !White(TrimLeft(s)[0] as int)
  {
    cut := [];
    if s != [] && IsSpace(s[0]) {
      cut := TrimmedLeft(s[1..]);
      cut := [s[0]] + cut;
      assert s == [s[0]] + s[1..];
    }
  }

  lemma {:induction false} TrimmedRight(s: string) returns (cut: string)
    ensures s == TrimRight(s) + cut && AllWhite(cut)
    ensures TrimRight(s) != [] ==> !White(TrimRight(s)[|TrimRight(s)| - 1] as int)
  {
    cut := [];
    if s != [] && IsSpace(s[|s| - 1]) {
      cut := TrimmedRight(s[..|s| - 1]);
      cut := cut + [s[|s| - 1]];
      assert s == s[..|s| - 1] + [s[|s| - 1]];
    }
  }

  /** Trimming cuts white space off both ends, all of it and nothing else. */
  lemma TrimExactly(s: string) returns (left: string, right: string)
    ensures s == left + Trim(s) + right && AllWhite(left) && AllWhite(right)
    ensures var t := Trim(s); t != [] ==> !White(t[0] as int) && !White(t[|t| - 1] as int)
  {
    left := TrimmedLeft(s);
    right := TrimmedRight(TrimLeft(s));
    if Trim(s) != [] {
      assert Trim(s)[0] == (Trim(s) + right)[0] == TrimLeft(s)[0];
    }
  }

  lemma TrimAgain(s: string)
    ensures Trim(Trim(s)) == Trim(s)
  {
    var left, right := TrimExactly(s);
  }
}

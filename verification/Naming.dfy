/**
 Directory names of creators. Which runes are letters or digits and which are white space is
 left to an alphabet; the rest follows the program rune by rune.
 */
module Naming {
  import opened Text

  datatype Alphabet = Alphabet(letter: char -> bool, space: char -> bool) {
    predicate Allowed(c: char) {
      letter(c) || c == '_' || c == '-'
    }

    /** What is assumed of the Unicode tables. */
    predicate Sensible() {
      && (forall c :: c in "unknown" ==> letter(c))
      && (forall c :: letter(c) || c == '_' || c == '-' ==> !space(c))
      && !letter('/') && !letter('.') && !letter('_') && !letter('-')
    }
  }

  predicate Edge(c: char) {
    c == '_' || c == '-'
  }

  function TrimLeft(s: string, cut: char -> bool): string {
    if s != [] && cut(s[0]) then TrimLeft(s[1..], cut) else s
  }

  function TrimRight(s: string, cut: char -> bool): string {
    if s != [] && cut(s[|s| - 1]) then TrimRight(s[..|s| - 1], cut) else s
  }

  function Trim(s: string, cut: char -> bool): string {
    TrimRight(TrimLeft(s, cut), cut)
  }

  /** Allowed runes stay; every run of others becomes one underscore. */
  function Squash(al: Alphabet, s: string, last: bool): string {
    if s == [] then []
    else if al.Allowed(s[0]) then [s[0]] + Squash(al, s[1..], false)
    else if !last then "_" + Squash(al, s[1..], true)
    else Squash(al, s[1..], true)
  }

  function SanitizeName(al: Alphabet, name: string): string {
    var trimmed := Trim(name, al.space);
    if trimmed == "" then "unknown"
    else
      var cleaned := Trim(Squash(al, trimmed, false), Edge);
      if cleaned == "" then "unknown" else cleaned
  }

  function DirectoryName(al: Alphabet, uid: string, name: string): string {
    uid + "_" + SanitizeName(al, name)
  }

  /** The loop of the program over a builder and a flag. */
  method SquashLoop(al: Alphabet, s: string) returns (out: string)
    ensures out == Squash(al, s, false)
  {
    out := "";
    var last := false;
    for i := 0 to |s|
      invariant out + Squash(al, s[i..], last) == Squash(al, s, false)
    {
      assert s[i..][0] == s[i] && s[i..][1..] == s[i + 1..];
      ghost var before := out;
      if al.Allowed(s[i]) {
        out := out + [s[i]];
        last := false;
        assert out + Squash(al, s[i + 1..], last) == before + ([s[i]] + Squash(al, s[i + 1..], last));
      } else if !last {
        out := out + "_";
        last := true;
        assert out + Squash(al, s[i + 1..], last) == before + ("_" + Squash(al, s[i + 1..], last));
      }
    }
    assert s[|s|..] == [];
  }

  // ---- What a sanitised name looks like ----------------------------------------------

  /** Fit to be part of a path: not empty, only allowed runes, no separator at either end. */
  ghost predicate Clean(al: Alphabet, s: string) {
    && s != ""
    && (forall c :: c in s ==> al.Allowed(c))
    && !Edge(s[0]) && !Edge(s[|s| - 1])
  }

  lemma {:induction false} SquashAllowed(al: Alphabet, s: string, last: bool)
    ensures forall c :: c in Squash(al, s, last) ==> al.Allowed(c)
  {
    if s != [] {
      SquashAllowed(al, s[1..], false);
      SquashAllowed(al, s[1..], true);
    }
  }

  lemma {:induction false} TrimRightPart(s: string, cut: char -> bool)
    ensures var t := TrimRight(s, cut);
      t <= s && (t != [] ==> !cut(t[|t| - 1])) && (forall c :: c in t ==> c in s)
  {
    if s != [] && cut(s[|s| - 1]) {
      TrimRightPart(s[..|s| - 1], cut);
    }
  }

  lemma {:induction false} TrimLeftPart(s: string, cut: char -> bool)
    ensures var t := TrimLeft(s, cut);
      (t != [] ==> !cut(t[0])) && (forall c :: c in t ==> c in s)
  {
    if s != [] && cut(s[0]) {
      TrimLeftPart(s[1..], cut);
    }
  }

  lemma TrimEnds(s: string, cut: char -> bool)
    ensures var t := Trim(s, cut);
      (t != [] ==> !cut(t[0]) && !cut(t[|t| - 1])) && (forall c :: c in t ==> c in s)
  {
    TrimLeftPart(s, cut);
    TrimRightPart(TrimLeft(s, cut), cut);
  }

  lemma SanitizedIsClean(al: Alphabet, name: string)
    requires al.Sensible()
    ensures Clean(al, SanitizeName(al, name))
    ensures '/' !in SanitizeName(al, name) && '.' !in SanitizeName(al, name)
  {
    assert Clean(al, "unknown") by {
      assert "unknown"[0] == 'u' && "unknown"[6] == 'n';
    }
    var trimmed := Trim(name, al.space);
    SquashAllowed(al, trimmed, false);
    TrimEnds(Squash(al, trimmed, false), Edge);
  }

  lemma {:induction false} SquashKeeps(al: Alphabet, s: string)
    requires forall c :: c in s ==> al.Allowed(c)
    ensures Squash(al, s, false) == s
  {
    if s != [] {
      SquashKeeps(al, s[1..]);
      assert s == [s[0]] + s[1..];
    }
  }

  /** Sanitising a sanitised name changes nothing. */
  lemma SanitizeIsIdempotent(al: Alphabet, name: string)
    requires al.Sensible()
    ensures SanitizeName(al, SanitizeName(al, name)) == SanitizeName(al, name)
  {
    var s := SanitizeName(al, name);
    SanitizedIsClean(al, name);
    assert al.Allowed(s[0]) && al.Allowed(s[|s| - 1]);
    assert Trim(s, al.space) == s;
    SquashKeeps(al, s);
    assert Trim(s, Edge) == s;
  }

  // ---- What a sanitised name keeps -----------------------------------------------------

  /** The flag after s. */
  predicate EndsOther(al: Alphabet, s: string, last: bool) {
    if s == [] then last else !al.Allowed(s[|s| - 1])
  }

  lemma {:induction false} SquashSplits(al: Alphabet, a: string, b: string, last: bool)
    ensures Squash(al, a + b, last) == Squash(al, a, last) + Squash(al, b, EndsOther(al, a, last))
  {
    if a == [] {
      assert a + b == b;
    } else {
      SquashSplits(al, a[1..], b, !al.Allowed(a[0]));
      assert (a + b)[0] == a[0] && (a + b)[1..] == a[1..] + b;
      assert EndsOther(al, a[1..], !al.Allowed(a[0])) == EndsOther(al, a, last);
    }
  }

  lemma {:induction false} SquashRun(al: Alphabet, run: string, last: bool)
    requires run != [] && forall c :: c in run ==> !al.Allowed(c)
    ensures Squash(al, run, last) == if last then "" else "_"
  {
    if |run| > 1 {
      assert run[0] in run;
      SquashRun(al, run[1..], true);
    } else {
      assert run[0] in run && run[1..] == [];
    }
  }

  /** A whole run of runes that are not allowed becomes one underscore, whatever surrounds it. */
  lemma RunBecomesUnderscore(al: Alphabet, a: string, run: string, b: string)
    requires run != [] && forall c :: c in run ==> !al.Allowed(c)
    requires (a != [] ==> al.Allowed(a[|a| - 1])) && (b != [] ==> al.Allowed(b[0]))
    ensures Squash(al, a + run + b, false) == Squash(al, a, false) + "_" + Squash(al, b, false)
  {
    SquashSplits(al, a + run, b, false);
    SquashSplits(al, a, run, false);
    SquashRun(al, run, false);
    assert (a + run)[|a + run| - 1] == run[|run| - 1] && run[|run| - 1] in run;
    assert Squash(al, b, true) == Squash(al, b, false);
  }

  ghost predicate All(s: string, p: char -> bool) {
    forall i :: 0 <= i < |s| ==> p(s[i])
  }

  lemma {:induction false} LeftCut(s: string, cut: char -> bool) returns (left: string)
    ensures s == left + TrimLeft(s, cut) && All(left, cut)
  {
    left := [];
    if s != [] && cut(s[0]) {
      left := LeftCut(s[1..], cut);
      left := [s[0]] + left;
      assert s == [s[0]] + s[1..];
    }
  }

  lemma {:induction false} RightCut(s: string, cut: char -> bool) returns (right: string)
    ensures s == TrimRight(s, cut) + right && All(right, cut)
  {
    right := [];
    if s != [] && cut(s[|s| - 1]) {
      right := RightCut(s[..|s| - 1], cut);
      right := right + [s[|s| - 1]];
      assert s == s[..|s| - 1] + [s[|s| - 1]];
    }
  }

  lemma BothCut(s: string, cut: char -> bool) returns (left: string, right: string)
    ensures s == left + Trim(s, cut) + right && All(left, cut) && All(right, cut)
  {
    left := LeftCut(s, cut);
    right := RightCut(TrimLeft(s, cut), cut);
  }

  function Letters(al: Alphabet, s: string): string {
    if s == [] then [] else (if al.letter(s[0]) then [s[0]] else []) + Letters(al, s[1..])
  }

  lemma {:induction false} LettersOfBoth(al: Alphabet, a: string, b: string)
    ensures Letters(al, a + b) == Letters(al, a) + Letters(al, b)
  {
    if a == [] {
      assert a + b == b;
    } else {
      LettersOfBoth(al, a[1..], b);
      assert (a + b)[0] == a[0] && (a + b)[1..] == a[1..] + b;
    }
  }

  lemma {:induction false} NoLetters(al: Alphabet, s: string)
    ensures Letters(al, s) == [] <==> All(s, c => !al.letter(c))
  {
    if s != [] {
      NoLetters(al, s[1..]);
      assert All(s, c => !al.letter(c)) <==> !al.letter(s[0]) && All(s[1..], c => !al.letter(c)) by {
        assert s == [s[0]] + s[1..];
      }
    }
  }

  lemma {:induction false} SquashKeepsLetters(al: Alphabet, s: string, last: bool)
    requires al.Sensible()
    ensures Letters(al, Squash(al, s, last)) == Letters(al, s)
  {
    if s != [] {
      SquashKeepsLetters(al, s[1..], !al.Allowed(s[0]));
    }
  }

  lemma TrimKeepsLetters(al: Alphabet, s: string, cut: char -> bool)
    requires forall c :: cut(c) ==> !al.letter(c)
    ensures Letters(al, Trim(s, cut)) == Letters(al, s)
  {
    var left, right := BothCut(s, cut);
    LettersOfBoth(al, left + Trim(s, cut), right);
    LettersOfBoth(al, left, Trim(s, cut));
    NoLetters(al, left);
    NoLetters(al, right);
  }

  /** A name without a letter becomes "unknown"; any other keeps its letters, all and in order, and
      is the squashed name but for white space and separators at its ends. */
  lemma SanitizeKeepsLetters(al: Alphabet, name: string)
    returns (left: string, core: string, right: string, before: string, after: string)
    requires al.Sensible()
    ensures Letters(al, name) == "" ==> SanitizeName(al, name) == "unknown"
    ensures Letters(al, name) != "" ==>
      && Letters(al, SanitizeName(al, name)) == Letters(al, name)
      && name == left + core + right && All(left, al.space) && All(right, al.space)
      && Squash(al, core, false) == before + SanitizeName(al, name) + after && All(before, Edge) && All(after, Edge)
  {
    core := Trim(name, al.space);
    left, right := BothCut(name, al.space);
    var squashed := Squash(al, core, false);
    before, after := BothCut(squashed, Edge);
    TrimKeepsLetters(al, name, al.space);
    SquashKeepsLetters(al, core, false);
    TrimKeepsLetters(al, squashed, Edge);
    SquashAllowed(al, core, false);
    TrimEnds(squashed, Edge);
    var cleaned := Trim(squashed, Edge);
    NoLetters(al, cleaned);
    assert cleaned != [] ==> cleaned[0] in squashed;
  }

  // ---- Directories of different creators do not mix ----------------------------------

  predicate OwnedBy(dirName: string, uid: string) {
    HasPrefix(dirName, uid + "_")
  }

  lemma OwnName(al: Alphabet, uid: string, name: string)
    ensures OwnedBy(DirectoryName(al, uid, name), uid)
  {
    var full := DirectoryName(al, uid, name);
    assert full[..|uid + "_"|] == uid + "_";
  }

  /** With no underscore in a uid, a directory name belongs to one uid at most. */
  lemma OneOwner(dirName: string, u: string, v: string)
    requires '_' !in u && '_' !in v && OwnedBy(dirName, u) && OwnedBy(dirName, v)
    ensures u == v
  {
    assert dirName[..|u| + 1] == u + "_" && dirName[..|v| + 1] == v + "_";
    assert dirName[|u|] == (u + "_")[|u|] == '_';
    assert dirName[|v|] == (v + "_")[|v|] == '_';
    assert |u| == |v|;
    assert u == (u + "_")[..|u|] && v == (v + "_")[..|v|];
  }

  /**
     Exactly which directories the clean-up of uid u takes for its own: those of u, those of
     every uid that continues u with an underscore, and those of a uid that u continues with an
     underscore, when the creator's name makes up for the rest of u.
   */
  lemma OwnersOfName(al: Alphabet, u: string, v: string, name: string)
    ensures OwnedBy(DirectoryName(al, v, name), u) <==>
      (|| u == v
       || HasPrefix(v, u + "_")
       || (HasPrefix(u, v + "_") && HasPrefix(SanitizeName(al, name), u[|v| + 1..] + "_")))
  {
    hide SanitizeName;
    var full := DirectoryName(al, v, name);
    assert full == v + ("_" + SanitizeName(al, name));
    if |u| < |v| {
      assert full[..|u| + 1] == v[..|u| + 1];
    } else if |u| == |v| {
      assert full[..|u| + 1] == v + "_";
      assert (u + "_")[..|u|] == u && (v + "_")[..|v|] == v;
    } else {
      LongerOwner(u, v, SanitizeName(al, name));
    }
  }

  lemma LongerOwner(u: string, v: string, clean: string)
    requires |u| > |v|
    ensures HasPrefix(v + "_" + clean, u + "_") <==> HasPrefix(u, v + "_") && HasPrefix(clean, u[|v| + 1..] + "_")
  {
    var full, p, n := v + "_" + clean, u + "_", |v| + 1;
    assert full[..n] == v + "_" && full[n..] == clean;
    assert p[..n] == u[..n] && p[n..] == u[n..] + "_";
    if |p| <= |full| {
      assert full[..|p|] == full[..n] + full[n..][..|p| - n];
      assert p == p[..n] + p[n..];
      assert full[..|p|][..n] == full[..n] && full[..|p|][n..] == full[n..][..|p| - n];
    }
  }

  /** When neither uid holds an underscore, the two cases that mix creators cannot arise. */
  lemma NoUnderscoreNoMixing(al: Alphabet, u: string, v: string, name: string)
    requires '_' !in u && '_' !in v
    ensures OwnedBy(DirectoryName(al, v, name), u) <==> u == v
  {
    hide SanitizeName;
    OwnName(al, v, name);
    if OwnedBy(DirectoryName(al, v, name), u) {
      OneOwner(DirectoryName(al, v, name), u, v);
    }
  }

  /** The clean-up of uid "a" also takes every directory of uid "a_b". */
  lemma UnderscoreMixesOwners(al: Alphabet, name: string)
    ensures OwnedBy(DirectoryName(al, "a_b", name), "a")
  {
    assert "a_b"[..2] == "a" + "_";
    OwnersOfName(al, "a", "a_b", name);
  }

  /** And the clean-up of uid "a_b" takes the directory of uid "a" when its name is "b_c". */
  lemma NameMixesOwners(al: Alphabet)
    requires al.Sensible() && al.letter('b') && al.letter('c')
    ensures OwnedBy(DirectoryName(al, "a", "b_c"), "a_b")
  {
    assert Trim("b_c", al.space) == "b_c" by {
      assert !al.space("b_c"[0]) && !al.space("b_c"[2]);
    }
    SquashKeeps(al, "b_c");
    assert Trim("b_c", Edge) == "b_c";
    assert "a" + "_" + "b_c" == "a_b" + "_" + "c";
    assert DirectoryName(al, "a", "b_c")[..4] == "a_b" + "_";
  }
}

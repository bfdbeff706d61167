/**
 The signed query string of the Bilibili client. A Go string is its bytes, so every character
 here is below 256. The hash is any function from bytes to text.
 */
module SignedQuery {
  import opened Common
  import opened Sorting
  import Text

  predicate IsBytes(s: string) {
    forall i :: 0 <= i < |s| ==> s[i] < 256 as char
  }

  predicate Unreserved(c: char) {
    'A' <= c <= 'Z' || 'a' <= c <= 'z' || '0' <= c <= '9' || c == '-' || c == '_' || c == '.' || c == '~'
  }

  function HexDigit(n: nat): char
    requires n < 16
  {
    "0123456789ABCDEF"[n]
  }

  function EncodeByte(c: char): string
    requires c < 256 as char
  {
    if Unreserved(c) then [c] else ['%', HexDigit(c as int / 16), HexDigit(c as int % 16)]
  }

  function EncodeComponent(s: string): string
    requires IsBytes(s)
  {
    if s == [] then [] else EncodeByte(s[0]) + EncodeComponent(s[1..])
  }

  predicate Dropped(c: char) {
    c == '!' || c == '\'' || c == '(' || c == ')' || c == '*'
  }

  function SanitizeValue(s: string): string {
    if s == [] then []
    else if Dropped(s[0]) then SanitizeValue(s[1..])
    else [s[0]] + SanitizeValue(s[1..])
  }

  /** strconv.FormatInt in base ten. */
  function Digits(n: nat): string {
    if n < 10 then [HexDigit(n)] else Digits(n / 10) + [HexDigit(n % 10)]
  }

  function FormatInt(n: int): string {
    if n < 0 then "-" + Digits(-n) else Digits(n)
  }

  type Params = map<string, string>

  predicate ParamsOfBytes(params: Params) {
    forall k :: k in params ==> IsBytes(k) && IsBytes(params[k])
  }

  /** The parameters as they are signed: values sanitised, wts set. */
  function Clean(params: Params, wts: int): Params {
    (map k | k in params :: SanitizeValue(params[k]))["wts" := FormatInt(wts)]
  }

  function Pair(m: Params, k: string): string
    requires k in m && IsBytes(k) && IsBytes(m[k])
  {
    EncodeComponent(k) + "=" + EncodeComponent(m[k])
  }

  predicate Fit(keys: seq<string>, m: Params) {
    forall k :: k in keys ==> k in m && IsBytes(k) && IsBytes(m[k])
  }

  /** The pairs in the order of the keys. */
  function Pairs(keys: seq<string>, m: Params): (parts: seq<string>)
    requires Fit(keys, m)
    ensures |parts| == |keys|
  {
    seq(|keys|, i requires 0 <= i < |keys| => assert keys[i] in keys; Pair(m, keys[i]))
  }

  function Joined(parts: seq<string>): string {
    if parts == [] then []
    else if |parts| == 1 then parts[0]
    else Joined(parts[..|parts| - 1]) + "&" + parts[|parts| - 1]
  }

  ghost function SomeOrder(keys: set<string>): seq<string> {
    if keys == {} then [] else var k := AnyOf(keys); [k] + SomeOrder(keys - {k})
  }

  /** The keys in ascending order. */
  ghost function SortedKeys(m: Params): seq<string> {
    Sort(Text.Less, SomeOrder(m.Keys))
  }

  lemma {:induction false} SomeOrderIsSet(keys: set<string>)
    ensures multiset(SomeOrder(keys)) == multiset(keys)
    ensures forall k :: k in SomeOrder(keys) ==> k in keys
    ensures forall k :: k in keys ==> k in SomeOrder(keys)
  {
    if keys != {} {
      var k := AnyOf(keys);
      SomeOrderIsSet(keys - {k});
      assert multiset(keys) == multiset(keys - {k}) + multiset{k};
    }
  }

  lemma SortedKeysFit(m: Params)
    requires ParamsOfBytes(m)
    ensures multiset(SortedKeys(m)) == multiset(m.Keys) && Fit(SortedKeys(m), m)
    ensures forall k :: k in m ==> k in SortedKeys(m)
  {
    SomeOrderIsSet(m.Keys);
    SameElements(SomeOrder(m.Keys), SortedKeys(m));
  }

  lemma AnyOrderSortsAlike(keys: seq<string>, m: Params)
    requires multiset(keys) == multiset(m.Keys)
    ensures Sort(Text.Less, keys) == SortedKeys(m)
  {
    SomeOrderIsSet(m.Keys);
    Text.LessIsStrictTotal();
    SortIgnoresOrder(Text.Less, keys, SomeOrder(m.Keys));
  }

  lemma {:induction false} SanitizedIsBytes(s: string)
    requires IsBytes(s)
    ensures IsBytes(SanitizeValue(s))
  {
    if s != [] {
      SanitizedIsBytes(s[1..]);
    }
  }

  lemma {:induction false} DigitsAreBytes(n: nat)
    ensures IsBytes(Digits(n))
  {
    if n >= 10 {
      DigitsAreBytes(n / 10);
    }
  }

  lemma CleanIsBytes(params: Params, wts: int)
    requires ParamsOfBytes(params)
    ensures ParamsOfBytes(Clean(params, wts))
  {
    forall k | k in params ensures IsBytes(SanitizeValue(params[k])) {
      SanitizedIsBytes(params[k]);
    }
    DigitsAreBytes(if wts < 0 then -wts else wts);
  }

  /** The part of the query that is signed. */
  ghost function SignedPart(params: Params, wts: int): string
    requires ParamsOfBytes(params)
  {
    var clean := Clean(params, wts);
    CleanIsBytes(params, wts);
    SortedKeysFit(clean);
    Joined(Pairs(SortedKeys(clean), clean))
  }

  ghost function SignParams(params: Params, mixinKey: string, wts: int, hash: string -> string): string
    requires ParamsOfBytes(params)
  {
    SignedPart(params, wts) + "&w_rid=" + hash(SignedPart(params, wts) + mixinKey)
  }

  // ---- The loops of the program -------------------------------------------------------------

  method EncodeLoop(s: string) returns (out: string)
    requires IsBytes(s)
    ensures out == EncodeComponent(s)
  {
    out := "";
    for i := 0 to |s|
      invariant out + EncodeComponent(s[i..]) == EncodeComponent(s)
    {
      assert s[i..][0] == s[i] && s[i..][1..] == s[i + 1..];
      assert out + (EncodeByte(s[i]) + EncodeComponent(s[i + 1..]))
          == out + EncodeByte(s[i]) + EncodeComponent(s[i + 1..]);
      out := out + EncodeByte(s[i]);
    }
    assert s[|s|..] == [] && out + [] == out;
  }

  /** The keys come out of the map in any order and are sorted. */
  method ListKeys(m: Params) returns (keys: seq<string>)
    ensures keys == SortedKeys(m)
  {
    keys := [];
    var todo := m.Keys;
    while todo != {}
      invariant todo <= m.Keys && multiset(keys) + multiset(todo) == multiset(m.Keys)
      decreases todo
    {
      ghost var some := AnyOf(todo);
      var k :| k in todo;
      assert multiset(todo) == multiset(todo - {k}) + multiset{k};
      keys := keys + [k];
      todo := todo - {k};
    }
    AnyOrderSortsAlike(keys, m);
    keys := Sort(Text.Less, keys);
  }

  method Sign(params: Params, mixinKey: string, wts: int, hash: string -> string) returns (query: string)
    requires ParamsOfBytes(params)
    ensures query == SignParams(params, mixinKey, wts, hash)
  {
    hide Clean, SortedKeys, EncodeComponent, Joined, Pairs, IsBytes, ParamsOfBytes;
    var clean := Clean(params, wts);
    CleanIsBytes(params, wts);
    SortedKeysFit(clean);
    var keys := ListKeys(clean);
    var signed := "";
    JoinedNothing(keys, clean);
    for i := 0 to |keys|
      invariant signed == Joined(Pairs(keys, clean)[..i])
    {
      var k := keys[i];
      FitAt(keys, clean, i);
      ghost var before := signed;
      if i > 0 {
        signed := signed + "&";
      }
      var left := EncodeLoop(k);
      var right := EncodeLoop(clean[k]);
      JoinedNext(keys, clean, i, before);
      signed := signed + left + "=" + right;
      assert signed == (if i > 0 then before + "&" else before) + left + "=" + right;
    }
    query := signed + "&w_rid=" + hash(signed + mixinKey);
  }

  lemma FitAt(keys: seq<string>, m: Params, i: nat)
    requires Fit(keys, m) && i < |keys|
    ensures keys[i] in m && IsBytes(keys[i]) && IsBytes(m[keys[i]])
  {
    assert keys[i] in keys;
  }

  lemma JoinedNothing(keys: seq<string>, m: Params)
    requires Fit(keys, m)
    ensures Joined(Pairs(keys, m)[..0]) == "" && Pairs(keys, m)[..|keys|] == Pairs(keys, m)
  {
  }

  /** What one turn of the loop appends. */
  lemma JoinedNext(keys: seq<string>, m: Params, i: nat, before: string)
    requires Fit(keys, m) && i < |keys| && before == Joined(Pairs(keys, m)[..i])
    ensures keys[i] in m && IsBytes(keys[i]) && IsBytes(m[keys[i]])
    ensures Joined(Pairs(keys, m)[..i + 1])
      == (if i > 0 then before + "&" else before) + EncodeComponent(keys[i]) + "=" + EncodeComponent(m[keys[i]])
  {
    hide EncodeComponent, IsBytes;
    FitAt(keys, m, i);
    var parts := Pairs(keys, m);
    assert parts[..i + 1][..i] == parts[..i];
    assert parts[i] == Pair(m, keys[i]);
    if i == 0 {
      assert before == "" && "" + EncodeComponent(keys[i]) == EncodeComponent(keys[i]);
    } else {
      var start, left, right := before + "&", EncodeComponent(keys[i]), EncodeComponent(m[keys[i]]);
      assert start + (left + "=" + right) == start + left + "=" + right;
    }
  }

  // ---- Reading the string back ---------------------------------------------------------------

  /** Percent-decoding (section 2.1 of RFC 3986). */
  function HexValue(c: char): nat {
    if '0' <= c <= '9' then c as int - '0' as int
    else if 'A' <= c <= 'F' then c as int - 'A' as int + 10
    else 0
  }

  function Decode(s: string): string {
    if s == [] then []
    else if s[0] == '%' && |s| >= 3 then [(HexValue(s[1]) * 16 + HexValue(s[2])) as char] + Decode(s[3..])
    else [s[0]] + Decode(s[1..])
  }

  /** The part before the first separator, and what follows it if there is one. */
  function Cut(s: string, sep: char): (string, Option<string>) {
    if s == [] then ([], None)
    else if s[0] == sep then ([], Some(s[1..]))
    else var (first, rest) := Cut(s[1..], sep); ([s[0]] + first, rest)
  }

  lemma {:induction false} CutShrinks(s: string, sep: char)
    ensures Cut(s, sep).1.Some? ==> |Cut(s, sep).1.value| < |s|
  {
    if s != [] && s[0] != sep {
      CutShrinks(s[1..], sep);
    }
  }

  function Split(s: string, sep: char): seq<string>
    decreases |s|
  {
    CutShrinks(s, sep);
    var (first, rest) := Cut(s, sep);
    if rest.None? then [first] else [first] + Split(rest.value, sep)
  }

  function ParsePair(part: string): (string, string) {
    var (k, v) := Cut(part, '=');
    (Decode(k), if v.Some? then Decode(v.value) else "")
  }

  function ParseParts(parts: seq<string>): Params {
    if parts == [] then map[]
    else
      var (k, v) := ParsePair(parts[|parts| - 1]);
      ParseParts(parts[..|parts| - 1])[k := v]
  }

  function ParseQuery(s: string): Params {
    ParseParts(Split(s, '&'))
  }

  predicate Plain(s: string) {
    '&' !in s && '=' !in s
  }

  lemma HexIsPlain(n: nat)
    requires n < 16
    ensures HexDigit(n) != '&' && HexDigit(n) != '='
  {
  }

  lemma ByteIsPlain(c: char)
    requires c < 256 as char
    ensures Plain(EncodeByte(c))
  {
    hide HexDigit;
    HexIsPlain(c as int / 16);
    HexIsPlain(c as int % 16);
  }

  lemma PlainTogether(a: string, b: string)
    requires Plain(a) && Plain(b)
    ensures Plain(a + b)
  {
  }

  lemma {:induction false} EncodedIsPlain(s: string)
    requires IsBytes(s)
    ensures Plain(EncodeComponent(s))
  {
    hide EncodeByte;
    if s != [] {
      EncodedIsPlain(s[1..]);
      ByteIsPlain(s[0]);
      PlainTogether(EncodeByte(s[0]), EncodeComponent(s[1..]));
    }
  }

  lemma DecodeFirst(c: char, rest: string)
    requires c < 256 as char
    ensures Decode(EncodeByte(c) + rest) == [c] + Decode(rest)
  {
    var e := EncodeByte(c);
    if Unreserved(c) {
      assert (e + rest)[1..] == rest;
    } else {
      assert (e + rest)[3..] == rest;
      HexRoundTrip(c as int / 16);
      HexRoundTrip(c as int % 16);
    }
  }

  lemma HexRoundTrip(n: nat)
    requires n < 16
    ensures HexValue(HexDigit(n)) == n
  {
  }

  /** Decoding undoes encoding. */
  lemma {:induction false} DecodeEncode(s: string)
    requires IsBytes(s)
    ensures Decode(EncodeComponent(s)) == s
  {
    if s != [] {
      DecodeEncode(s[1..]);
      DecodeFirst(s[0], EncodeComponent(s[1..]));
      assert s == [s[0]] + s[1..];
    }
  }

  lemma {:induction false} CutAt(a: string, sep: char, b: string)
    requires sep !in a
    ensures Cut(a + [sep] + b, sep) == (a, Some(b))
    ensures Cut(a, sep) == (a, None)
  {
    if a == [] {
      assert a + [sep] + b == [sep] + b;
    } else {
      assert sep !in a[1..];
      CutAt(a[1..], sep, b);
      assert (a + [sep] + b)[1..] == a[1..] + [sep] + b;
      assert a == [a[0]] + a[1..];
    }
  }

  lemma PairParses(m: Params, k: string)
    requires k in m && IsBytes(k) && IsBytes(m[k])
    ensures ParsePair(Pair(m, k)) == (k, m[k]) && '&' !in Pair(m, k)
  {
    hide EncodeByte, EncodeComponent, Decode, Cut, IsBytes;
    EncodedIsPlain(k);
    EncodedIsPlain(m[k]);
    CutAt(EncodeComponent(k), '=', EncodeComponent(m[k]));
    DecodeEncode(k);
    DecodeEncode(m[k]);
  }

  lemma {:induction false} SplitTail(a: string, b: string, sep: char)
    requires sep !in b
    ensures Split(a + [sep] + b, sep) == Split(a, sep) + [b]
    decreases |a|
  {
    var (first, rest) := Cut(a, sep);
    CutShrinks(a, sep);
    CutThrough(a, [sep] + b, sep);
    assert a + [sep] + b == a + ([sep] + b);
    if rest.None? {
      CutAt(a, sep, b);
      CutAt(b, sep, []);
    } else {
      assert rest.value + ([sep] + b) == rest.value + [sep] + b;
      SplitTail(rest.value, b, sep);
    }
  }

  lemma {:induction false} CutThrough(a: string, b: string, sep: char)
    ensures Cut(a, sep).1.Some? ==> Cut(a + b, sep) == (Cut(a, sep).0, Some(Cut(a, sep).1.value + b))
    ensures Cut(a, sep).1.None? ==> sep !in a
  {
    if a != [] {
      assert (a + b)[1..] == a[1..] + b;
      if a[0] != sep {
        CutThrough(a[1..], b, sep);
      }
      assert a == [a[0]] + a[1..];
    }
  }

  /** Splitting gives back the parts that were joined. */
  lemma {:induction false} SplitJoined(parts: seq<string>)
    requires parts != [] && forall i :: 0 <= i < |parts| ==> '&' !in parts[i]
    ensures Split(Joined(parts), '&') == parts
  {
    var front, last := parts[..|parts| - 1], parts[|parts| - 1];
    if |parts| == 1 {
      CutAt(last, '&', []);
    } else {
      SplitJoined(front);
      SplitTail(Joined(front), last, '&');
      assert Joined(parts) == Joined(front) + ['&'] + last;
      assert parts == front + [last];
    }
  }

  lemma {:induction false} ParsePairs(keys: seq<string>, m: Params, n: nat)
    requires Fit(keys, m) && n <= |keys|
    ensures forall k :: k in ParseParts(Pairs(keys, m)[..n]) ==> k in keys && ParseParts(Pairs(keys, m)[..n])[k] == m[k]
    ensures forall i :: 0 <= i < n ==> keys[i] in ParseParts(Pairs(keys, m)[..n])
    decreases n
  {
    hide IsBytes, ParsePair, Pair;
    if n > 0 {
      var parts := Pairs(keys, m);
      ParsePairs(keys, m, n - 1);
      assert parts[..n][..n - 1] == parts[..n - 1];
      FitAt(keys, m, n - 1);
      PairParses(m, keys[n - 1]);
      assert parts[n - 1] == Pair(m, keys[n - 1]);
      assert ParseParts(parts[..n]) == ParseParts(parts[..n - 1])[keys[n - 1] := m[keys[n - 1]]];
    }
  }

  /** Reading back the signed part gives exactly the sanitised parameters with wts set. */
  lemma SignedPartParses(params: Params, wts: int)
    requires ParamsOfBytes(params)
    ensures ParseQuery(SignedPart(params, wts)) == Clean(params, wts)
  {
    hide IsBytes, ParamsOfBytes, SortedKeys, Split, ParseParts, Joined, ParsePair, Pair;
    var clean := Clean(params, wts);
    CleanIsBytes(params, wts);
    SortedKeysFit(clean);
    var keys := SortedKeys(clean);
    var parts := Pairs(keys, clean);
    assert "wts" in clean && "wts" in keys;
    forall i | 0 <= i < |parts| ensures '&' !in parts[i] {
      FitAt(keys, clean, i);
      PairParses(clean, keys[i]);
      assert parts[i] == Pair(clean, keys[i]);
    }
    SplitJoined(parts);
    ParsePairs(keys, clean, |parts|);
    assert parts[..|parts|] == parts;
    var parsed := ParseParts(parts);
    forall k | k in clean ensures k in parsed {
      var i := IndexOf(keys, k);
    }
    assert parsed == clean;
  }

  /** Different parameters never share a signed part. */
  lemma SignedPartIsInjective(p: Params, v: int, q: Params, w: int)
    requires ParamsOfBytes(p) && ParamsOfBytes(q)
    ensures SignedPart(p, v) == SignedPart(q, w) <==> Clean(p, v) == Clean(q, w)
  {
    SignedPartParses(p, v);
    SignedPartParses(q, w);
  }

  /** The whole query is the signed part followed by one more pair, the signature, as long as
      the hash contains no ampersand. */
  lemma SignatureIsLastPart(params: Params, mixinKey: string, wts: int, hash: string -> string)
    requires ParamsOfBytes(params) && '&' !in hash(SignedPart(params, wts) + mixinKey)
    ensures Split(SignParams(params, mixinKey, wts, hash), '&')
      == Split(SignedPart(params, wts), '&') + ["w_rid=" + hash(SignedPart(params, wts) + mixinKey)]
  {
    hide SignedPart, Split, ParamsOfBytes;
    var signed := SignedPart(params, wts);
    var last := "w_rid=" + hash(signed + mixinKey);
    assert SignParams(params, mixinKey, wts, hash) == signed + ['&'] + last;
    SplitTail(signed, last, '&');
  }

  /** The pairs appear in ascending order of their keys, each key once. */
  lemma KeysAscend(m: Params)
    ensures Ordered(Text.Less, SortedKeys(m)) && multiset(SortedKeys(m)) == multiset(m.Keys)
  {
    SomeOrderIsSet(m.Keys);
    Text.LessIsStrictTotal();
    SortOrdered(Text.Less, SomeOrder(m.Keys));
  }

  // ---- What the string holds, character by character -----------------------------------------

  /** Letters, digits, '-', '.', '_' and '~' (section 2.3 of RFC 3986). */
  predicate UnreservedCode(n: int) {
    0x41 <= n <= 0x5A || 0x61 <= n <= 0x7A || 0x30 <= n <= 0x39 || n in {0x2D, 0x2E, 0x5F, 0x7E}
  }

  /** Encoding goes byte by byte: an unreserved one stays, any other becomes three characters. */
  lemma {:induction false} EncodedExactly(a: string, c: char)
    requires IsBytes(a) && c < 256 as char
    ensures UnreservedCode(c as int) ==> EncodeComponent(a + [c]) == EncodeComponent(a) + [c]
    ensures !UnreservedCode(c as int) ==>
      EncodeComponent(a + [c]) ==
        EncodeComponent(a) + ['%', HexDigit(c as int / 16), HexDigit(c as int % 16)]
  {
    if a == [] {
      assert [c][1..] == [] && a + [c] == [c];
    } else {
      EncodedExactly(a[1..], c);
      assert (a + [c])[1..] == a[1..] + [c];
    }
  }

  /** A value loses the characters ! ' ( ) * and nothing else. */
  lemma {:induction false} SanitizedExactly(a: string, c: char)
    ensures SanitizeValue(a + [c])
      == SanitizeValue(a) + (if c as int in {0x21, 0x27, 0x28, 0x29, 0x2A} then [] else [c])
  {
    if a == [] {
      assert [c][1..] == [] && a + [c] == [c];
    } else {
      SanitizedExactly(a[1..], c);
      assert (a + [c])[1..] == a[1..] + [c];
    }
  }

  /** Reading a number in base ten, with a sign. */
  function ReadDigits(s: string): int {
    if s == [] then 0 else ReadDigits(s[..|s| - 1]) * 10 + (s[|s| - 1] as int - '0' as int)
  }

  function ReadInt(s: string): int {
    if s != [] && s[0] == '-' then -ReadDigits(s[1..]) else ReadDigits(s)
  }

  lemma DigitIs(n: nat)
    requires n < 10
    ensures HexDigit(n) as int == '0' as int + n
  {
  }

  lemma {:induction false} DigitsRead(n: nat)
    ensures ReadDigits(Digits(n)) == n && AllDigits(Digits(n))
    ensures Digits(n) != [] && (Digits(n)[0] == '0' ==> n == 0 && |Digits(n)| == 1)
  {
    DigitIs(n % 10);
    hide HexDigit;
    var digits := Digits(n);
    if n < 10 {
      assert digits[..0] == [] && ReadDigits([]) == 0;
    } else {
      DigitsRead(n / 10);
      assert digits[..|digits| - 1] == Digits(n / 10);
      assert n == n / 10 * 10 + n % 10;
    }
  }

  predicate AllDigits(s: string) {
    forall i :: 0 <= i < |s| ==> '0' <= s[i] <= '9'
  }

  /** A number in base ten: a minus sign only below zero, and no zeros in front. */
  predicate Decimal(s: string, n: int) {
    var digits := if n < 0 && s != [] then s[1..] else s;
    && ReadInt(s) == n
    && (n < 0 ==> s != [] && s[0] == '-')
    && digits != [] && AllDigits(digits) && (digits[0] == '0' ==> |digits| == 1)
  }

  lemma FormatReads(n: int)
    ensures Decimal(FormatInt(n), n)
  {
    DigitsRead(if n < 0 then -n else n);
    assert ("-" + Digits(if n < 0 then -n else n))[1..] == Digits(if n < 0 then -n else n);
  }

  /** The value without the characters that are dropped. */
  function Stripped(s: string): string {
    if s == [] then []
    else
      var last := s[|s| - 1];
      Stripped(s[..|s| - 1]) + (if last as int in {0x21, 0x27, 0x28, 0x29, 0x2A} then [] else [last])
  }

  lemma {:induction false} SanitizedIsStripped(s: string)
    ensures SanitizeValue(s) == Stripped(s)
  {
    if s != [] {
      SanitizedIsStripped(s[..|s| - 1]);
      SanitizedExactly(s[..|s| - 1], s[|s| - 1]);
      assert s == s[..|s| - 1] + [s[|s| - 1]];
    }
  }

  /** Reading back the signed part gives the time under `wts` and every other parameter without
      the characters that are dropped, and nothing else. */
  lemma SignedPartTells(params: Params, wts: int)
    requires ParamsOfBytes(params)
    ensures var m := ParseQuery(SignedPart(params, wts));
      && m.Keys == params.Keys + {"wts"} && Decimal(m["wts"], wts)
      && forall k :: k in params && k != "wts" ==> m[k] == Stripped(params[k])
  {
    hide IsBytes, ParamsOfBytes, ParseQuery, SignedPart, Stripped, Decimal;
    SignedPartParses(params, wts);
    FormatReads(wts);
    forall k | k in params ensures SanitizeValue(params[k]) == Stripped(params[k]) {
      SanitizedIsStripped(params[k]);
    }
  }
}

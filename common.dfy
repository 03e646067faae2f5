/** Values and string operations shared by every part of the model. */
module Common {

  datatype Option<+T> = None | Some(value: T)

  /** The outcome of a step that may end the whole process: `Exit` is
      `std::process::exit(1)`, `Panic` is a panic (`unwrap`, `expect`,
      `unreachable!`). Failure-compatible, so a method can write `:-`. */
  datatype Run<+T> = Ok(value: T) | Exit | Panic {
    predicate IsFailure() {
      !Ok?
    }

    function PropagateFailure<U>(): Run<U>
      requires !Ok?
    {
      if Exit? then Exit else Panic
    }

    function Extract(): T
      requires Ok?
    {
      value
    }
  }

  /** `Vec::insert`: `x` lands at index `i`, later elements move up. */
  function Insert<T>(s: seq<T>, i: nat, x: T): (r: seq<T>)
    requires i <= |s|
    ensures |r| == |s| + 1 && r[i] == x
    ensures r[..i] == s[..i] && r[i + 1..] == s[i..]
  {
    s[..i] + [x] + s[i..]
  }

  /** No element occurs twice. */
  predicate NoDup<T(==)>(s: seq<T>) {
    forall i, j :: 0 <= i < j < |s| ==> s[i] != s[j]
  }

  /** `s` lists every element of `keys` exactly once: one iteration order of
      a hash map or set. */
  predicate Enumerates<T(==)>(s: seq<T>, keys: set<T>) {
    NoDup(s) && (forall k :: k in s ==> k in keys) && (forall k :: k in keys ==> k in s)
  }

  /** An enumeration of a set has one entry per element: every element
      occurs exactly once and nothing else occurs. */
  lemma {:induction false} EnumeratesOnce<T>(s: seq<T>, keys: set<T>)
    requires Enumerates(s, keys)
    ensures |s| == |keys|
    ensures forall x :: multiset(s)[x] == if x in keys then 1 else 0
    decreases |s|
  {
    if s == [] {
      assert forall k :: k !in keys;
    } else {
      var rest := keys - {s[0]};
      EnumeratesTail(s, keys);
      EnumeratesOnce(s[1..], rest);
      assert s[0] in keys && keys == rest + {s[0]} && s[0] !in rest;
      assert |keys| == |rest| + 1;
      assert s == [s[0]] + s[1..];
      var m := multiset(s[1..]);
      assert multiset(s) == multiset{s[0]} + m;
      forall x ensures multiset(s)[x] == if x in keys then 1 else 0 {
        assert multiset(s)[x] == (if x == s[0] then 1 else 0) + m[x];
      }
    }
  }

  /** Past its first element, an enumeration enumerates the rest. */
  lemma EnumeratesTail<T>(s: seq<T>, keys: set<T>)
    requires Enumerates(s, keys) && s != []
    ensures Enumerates(s[1..], keys - {s[0]})
  {
    var rest := keys - {s[0]};
    forall k | k in s[1..] ensures k in rest {
      var j :| 0 <= j < |s[1..]| && s[1..][j] == k;
      assert s[j + 1] == k && s[0] != s[j + 1];
    }
    forall k | k in rest ensures k in s[1..] {
      assert k in s && k != s[0];
      var j :| 0 <= j < |s| && s[j] == k;
      assert s[1..][j - 1] == k;
    }
    forall i, j | 0 <= i < j < |s[1..]| ensures s[1..][i] != s[1..][j] {
      assert s[1..][i] == s[i + 1] && s[1..][j] == s[j + 1];
    }
  }

  // ---------------------------------------------------------------- whitespace

  /** `char::is_whitespace`: the Unicode White_Space property. */
  predicate IsWhitespace(c: char) {
    ('\t' <= c <= '\r') || c == ' ' || c == '\U{0085}' || c == '\U{00A0}' || c == '\U{1680}'
    || ('\U{2000}' <= c <= '\U{200A}') || c == '\U{2028}' || c == '\U{2029}'
    || c == '\U{202F}' || c == '\U{205F}' || c == '\U{3000}'
  }

  predicate AllWhitespace(s: string) {
    forall i :: 0 <= i < |s| ==> IsWhitespace(s[i])
  }

  predicate NoWhitespace(s: string) {
    forall i :: 0 <= i < |s| ==> !IsWhitespace(s[i])
  }

  /** `str::trim_start`. */
  function TrimStart(s: string): (r: string)
    ensures |r| <= |s| && r == s[|s| - |r|..]
    ensures AllWhitespace(s[..|s| - |r|])
    ensures r == [] || !IsWhitespace(r[0])
  {
    if |s| > 0 && IsWhitespace(s[0]) then
      var r := TrimStart(s[1..]);
      assert s[1..][..|s| - 1 - |r|] == s[1..|s| - |r|];
      r
    else s
  }

  /** `str::trim_end`. */
  function TrimEnd(s: string): (r: string)
    ensures |r| <= |s| && r == s[..|r|]
    ensures AllWhitespace(s[|r|..])
    ensures r == [] || !IsWhitespace(r[|r| - 1])
  {
    if |s| > 0 && IsWhitespace(s[|s| - 1]) then
      var r := TrimEnd(s[..|s| - 1]);
      assert s[..|s| - 1][|r|..] + [s[|s| - 1]] == s[|r|..];
      r
    else s
  }

  /** `str::trim`: the output of a git command is empty after trimming exactly
      when the command printed whitespace only. */
  function Trim(s: string): (r: string)
    ensures |r| <= |s|
    ensures r == [] <==> AllWhitespace(s)
    ensures r != [] ==> !IsWhitespace(r[0]) && !IsWhitespace(r[|r| - 1])
  {
    var t := TrimStart(s);
    var r := TrimEnd(t);
    assert r == [] ==> s == s[..|s| - |t|] + t[|r|..];
    assert r != [] ==> r[0] == t[0] && r[0] == s[|s| - |t|];
    r
  }

  /** The longest prefix of `s` without whitespace. */
  function Word(s: string): (w: string)
    ensures |w| <= |s| && w == s[..|w|] && NoWhitespace(w)
    ensures |w| < |s| ==> IsWhitespace(s[|w|])
  {
    if |s| == 0 || IsWhitespace(s[0]) then [] else [s[0]] + Word(s[1..])
  }

  /** `str::split_whitespace`: the maximal runs of non-whitespace, in order. */
  function SplitWhitespace(s: string): seq<string>
    decreases |s|
  {
    var t := TrimStart(s);
    if t == [] then []
    else
      var w := Word(t);
      assert w != [];
      [w] + SplitWhitespace(t[|w|..])
  }

  /** Every word `split_whitespace` yields is non-empty and free of
      whitespace. */
  lemma {:induction false} SplitWhitespaceWords(s: string)
    ensures forall k :: 0 <= k < |SplitWhitespace(s)| ==> SplitWhitespace(s)[k] != [] && NoWhitespace(SplitWhitespace(s)[k])
    decreases |s|
  {
    var t := TrimStart(s);
    if t != [] {
      var w := Word(t);
      assert w != [];
      SplitWhitespaceWords(t[|w|..]);
      var rest := SplitWhitespace(t[|w|..]);
      var r := SplitWhitespace(s);
      assert r == [w] + rest;
      forall k | 0 <= k < |r|
        ensures r[k] != [] && NoWhitespace(r[k])
      {
        if k > 0 {
          assert r[k] == rest[k - 1];
        }
      }
    }
  }

  /** Words joined with one space between neighbours. */
  function JoinSpace(ws: seq<string>): string {
    if |ws| == 0 then "" else if |ws| == 1 then ws[0] else ws[0] + " " + JoinSpace(ws[1..])
  }

  lemma TrimStartKeeps(s: string)
    requires s == [] || !IsWhitespace(s[0])
    ensures TrimStart(s) == s
  {
  }

  lemma WordOf(w: string, tail: string)
    requires NoWhitespace(w)
    requires tail == [] || IsWhitespace(tail[0])
    ensures Word(w + tail) == w
    decreases |w|
  {
    if w != [] {
      assert (w + tail)[1..] == w[1..] + tail;
      WordOf(w[1..], tail);
    }
  }

  lemma SplitOneWord(w: string)
    requires w != [] && NoWhitespace(w)
    ensures SplitWhitespace(w) == [w]
  {
    TrimStartKeeps(w);
    WordOf(w, []);
    assert w + [] == w;
    assert w[|w|..] == [];
  }

  lemma SplitWordSpace(w: string, rest: string)
    requires w != [] && NoWhitespace(w)
    requires rest != [] && !IsWhitespace(rest[0])
    ensures SplitWhitespace(w + " " + rest) == [w] + SplitWhitespace(rest)
  {
    var s := w + " " + rest;
    assert s == w + (" " + rest);
    TrimStartKeeps(s);
    WordOf(w, " " + rest);
    assert s[|w|..] == " " + rest;
    assert (" " + rest)[1..] == rest;
    TrimStartKeeps(rest);
    assert TrimStart(" " + rest) == rest;
  }

  /** Splitting words joined by single spaces gives the words back, provided
      each is non-empty and free of whitespace. */
  lemma {:induction false} SplitJoin(ws: seq<string>)
    requires forall k :: 0 <= k < |ws| ==> ws[k] != [] && NoWhitespace(ws[k])
    ensures SplitWhitespace(JoinSpace(ws)) == ws
  {
    if |ws| == 1 {
      SplitOneWord(ws[0]);
    } else if |ws| > 1 {
      var rest := ws[1..];
      assert forall k :: 0 <= k < |rest| ==> rest[k] == ws[k + 1];
      SplitJoin(rest);
      JoinSpaceStart(rest);
      assert JoinSpace(ws) == ws[0] + " " + JoinSpace(rest);
      SplitWordSpace(ws[0], JoinSpace(rest));
      assert [ws[0]] + rest == ws;
    }
  }

  lemma JoinSpaceStart(ws: seq<string>)
    requires |ws| > 0 && ws[0] != [] && !IsWhitespace(ws[0][0])
    ensures JoinSpace(ws) != [] && JoinSpace(ws)[0] == ws[0][0]
  {
  }

  // ---------------------------------------------------------------- searching

  predicate IsPrefix(p: string, s: string) {
    |p| <= |s| && s[..|p|] == p
  }

  /** `str::contains`: `needle` occurs somewhere in `hay`. */
  predicate Contains(hay: string, needle: string)
    decreases |hay|
  {
    IsPrefix(needle, hay) || (|hay| > 0 && Contains(hay[1..], needle))
  }

  /** `str::strip_prefix`. */
  function StripPrefix(s: string, p: string): (r: Option<string>)
    ensures r.Some? <==> IsPrefix(p, s)
    ensures r.Some? ==> p + r.value == s
  {
    if IsPrefix(p, s) then Some(s[|p|..]) else None
  }

  /** `str::replace` of a single character by a string. */
  function ReplaceChar(s: string, c: char, with: string): (r: string)
    ensures c !in with ==> c !in r
  {
    if s == [] then []
    else (if s[0] == c then with else [s[0]]) + ReplaceChar(s[1..], c, with)
  }

  /** ASCII lower-casing. For the one-letter answers the prompts accept this
      agrees with `str::to_lowercase`: no other character lower-cases to one
      of `y`, `n`, `m`. */
  function LowerChar(c: char): char {
    if 'A' <= c <= 'Z' then (c as int + 32) as char else c
  }

  function Lower(s: string): (r: string)
    ensures |r| == |s|
  {
    seq(|s|, i requires 0 <= i < |s| => LowerChar(s[i]))
  }

  // ---------------------------------------------------------------- numbers

  predicate IsDigit(c: char) {
    '0' <= c <= '9'
  }

  predicate AllDigits(s: string) {
    forall i :: 0 <= i < |s| ==> IsDigit(s[i])
  }

  function DigitsValue(s: string): nat
    requires AllDigits(s)
  {
    if s == [] then 0 else DigitsValue(s[..|s| - 1]) * 10 + (s[|s| - 1] as int - '0' as int)
  }

  const I32Min: int := -0x8000_0000
  const I32Max: int := 0x7fff_ffff

  /** `str::parse::<i32>`: an optional sign, at least one ASCII digit, and a
      value in the 32-bit range; anything else is an error (`None`). */
  function ParseI32(s: string): (r: Option<int>)
    ensures r.Some? ==> I32Min <= r.value <= I32Max
    ensures AllDigits(s) && s != [] && DigitsValue(s) <= I32Max ==> r == Some(DigitsValue(s))
    ensures s == [] ==> r == None
  {
    if |s| > 0 && (s[0] == '+' || s[0] == '-') then
      var d := s[1..];
      if d != [] && AllDigits(d) then
        var v: int := if s[0] == '-' then 0 - (DigitsValue(d) as int) else DigitsValue(d);
        if I32Min <= v <= I32Max then Some(v) else None
      else None
    else if s != [] && AllDigits(s) && DigitsValue(s) <= I32Max then Some(DigitsValue(s))
    else None
  }

  /** `to_string` of a non-negative integer. */
  function NatToString(n: nat): (s: string)
    ensures s != [] && AllDigits(s)
  {
    if n < 10 then [('0' as int + n) as char]
    else NatToString(n / 10) + [('0' as int + n % 10) as char]
  }

  lemma {:induction false} NatToStringValue(n: nat)
    ensures DigitsValue(NatToString(n)) == n
  {
    var s := NatToString(n);
    if n >= 10 {
      NatToStringValue(n / 10);
      assert s[..|s| - 1] == NatToString(n / 10);
    }
  }

  /** Printing a page number and parsing it back gives the number. */
  lemma ParseNatToString(n: nat)
    requires n <= I32Max
    ensures ParseI32(NatToString(n)) == Some(n)
  {
    NatToStringValue(n);
  }
}

/** The JavaScript string operations the server relies on (`startsWith`,
    `includes`, `split`, `join`, `trim`, the `\s` class, ASCII case mapping),
    stated over `seq<char>`, and the `Option` type used for values that may be
    `undefined`. */
module JsText {

  datatype Option<+T> = None | Some(value: T)

  /** JavaScript truthiness of a possibly-absent string: `undefined` and `''` are falsy. */
  predicate Truthy(o: Option<string>)
  {
    o.Some? && o.value != ""
  }

  /** `a || b` on possibly-absent strings. */
  function Or(a: Option<string>, b: Option<string>): (r: Option<string>)
    ensures Truthy(a) ==> r == a
    ensures !Truthy(a) ==> r == b
  {
    if Truthy(a) then a else b
  }

  /** `s || ''`: the string itself, or the empty string when it is absent. */
  function OrEmpty(o: Option<string>): (r: string)
    ensures o.Some? ==> r == o.value
    ensures o.None? ==> r == ""
  {
    match o
    case Some(s) => s
    case None => ""
  }

  /** The characters matched by `\s` in a JavaScript regular expression and
      removed by `String.prototype.trim`. */
  predicate IsSpace(c: char)
  {
    c == '\t' || c == '\n' || c == '\U{000B}' || c == '\U{000C}' || c == '\r' || c == ' '
    || c == '\U{00A0}' || c == '\U{1680}' || ('\U{2000}' <= c <= '\U{200A}')
    || c == '\U{2028}' || c == '\U{2029}' || c == '\U{202F}' || c == '\U{205F}'
    || c == '\U{3000}' || c == '\U{FEFF}'
  }

  /** `s.trim() === ''`. */
  predicate IsBlank(s: string)
  {
    forall i :: 0 <= i < |s| ==> IsSpace(s[i])
  }

  predicate StartsWith(s: string, prefix: string)
  {
    |prefix| <= |s| && s[..|prefix|] == prefix
  }

  /** `s.includes(needle)`: `needle` occurs at some position of `s`. */
  predicate Includes(s: string, needle: string)
  {
    exists k :: 0 <= k <= |s| - |needle| && OccursAt(s, needle, k)
  }

  /** `needle` occurs in `s` starting at index `k`. */
  predicate OccursAt(s: string, needle: string, k: nat)
  {
    k + |needle| <= |s| && s[k..k + |needle|] == needle
  }

  /** Index of the first occurrence of `c` at or after `from`, if any. */
  function IndexOfFrom(s: string, c: char, from: nat): (r: Option<nat>)
    decreases |s| - from
    ensures r.Some? ==> from <= r.value < |s| && s[r.value] == c
  {
    if from >= |s| then None
    else if s[from] == c then Some(from)
    else IndexOfFrom(s, c, from + 1)
  }

  /** `indexOf` finds the first occurrence: no earlier position from `from`
      on holds `c`, and `-1` (here `None`) means no position does. */
  lemma {:induction false} IndexOfFromFirst(s: string, c: char, from: nat)
    ensures IndexOfFrom(s, c, from).Some? ==> forall k :: from <= k < IndexOfFrom(s, c, from).value ==> s[k] != c
    ensures IndexOfFrom(s, c, from).None? <==> forall k :: from <= k < |s| ==> s[k] != c
    decreases |s| - from
  {
    if from < |s| && s[from] != c {
      IndexOfFromFirst(s, c, from + 1);
    }
  }

  /** `s.indexOf(needle, from)`: the first position at or after `from`
      where `needle` occurs, if any. */
  function FindFrom(s: string, needle: string, from: nat): (r: Option<nat>)
    decreases |s| - from
    ensures r.Some? ==> from <= r.value && OccursAt(s, needle, r.value)
  {
    if from + |needle| > |s| then None
    else if OccursAt(s, needle, from) then Some(from)
    else FindFrom(s, needle, from + 1)
  }

  /** `FindFrom` finds the first occurrence, and `None` means there is none. */
  lemma {:induction false} FindFromFirst(s: string, needle: string, from: nat)
    ensures FindFrom(s, needle, from).Some? ==>
      forall k :: from <= k < FindFrom(s, needle, from).value ==> !OccursAt(s, needle, k)
    ensures FindFrom(s, needle, from).None? ==> forall k :: from <= k ==> !OccursAt(s, needle, k)
    decreases |s| - from
  {
    if from + |needle| <= |s| && !OccursAt(s, needle, from) {
      FindFromFirst(s, needle, from + 1);
    }
  }

  /** A position holding `c` with no earlier one from `from` on is what `indexOf` finds. */
  lemma {:induction false} IndexOfFromAt(s: string, c: char, from: nat, k: nat)
    requires from <= k < |s| && s[k] == c
    requires forall j :: from <= j < k ==> s[j] != c
    ensures IndexOfFrom(s, c, from) == Some(k)
    decreases k - from
  {
    if from < k {
      IndexOfFromAt(s, c, from + 1, k);
    }
  }

  /** An occurrence of `needle` with no earlier one from `from` on is what
      `indexOf` finds. */
  lemma {:induction false} FindFromAt(s: string, needle: string, from: nat, k: nat)
    requires from <= k && OccursAt(s, needle, k)
    requires forall j :: from <= j < k ==> !OccursAt(s, needle, j)
    ensures FindFrom(s, needle, from) == Some(k)
    decreases k - from
  {
    if from < k {
      FindFromAt(s, needle, from + 1, k);
    }
  }

  /** `s.split(sep)` for a one-character separator. */
  function Split(s: string, sep: char): (parts: seq<string>)
    ensures |parts| >= 1
    decreases |s|
  {
    match IndexOfFrom(s, sep, 0)
    case None => [s]
    case Some(k) => [s[..k]] + Split(s[k + 1..], sep)
  }

  /** `parts.join(sep)`. */
  function Join(parts: seq<string>, sep: string): (r: string)
    decreases |parts|
  {
    if |parts| == 0 then ""
    else if |parts| == 1 then parts[0]
    else parts[0] + sep + Join(parts[1..], sep)
  }

  /** Joining the pieces of a split restores the string: `s.split(c).join(c) === s`. */
  lemma {:induction false} JoinSplit(s: string, sep: char)
    ensures Join(Split(s, sep), [sep]) == s
    decreases |s|
  {
    match IndexOfFrom(s, sep, 0)
    case None =>
    case Some(k) =>
      var rest := s[k + 1..];
      var parts := Split(s, sep);
      JoinSplit(rest, sep);
      assert parts == [s[..k]] + Split(rest, sep);
      assert parts[1..] == Split(rest, sep);
      assert Join(parts, [sep]) == s[..k] + [sep] + rest;
      assert s == s[..k] + [sep] + rest;
  }

  /** A string without the separator is split into itself alone. */
  lemma SplitNoSeparator(s: string, sep: char)
    requires sep !in s
    ensures Split(s, sep) == [s]
  {
    IndexOfFromFirst(s, sep, 0);
  }

  function ToLowerChar(c: char): (r: char)
    ensures 'A' <= c <= 'Z' ==> 'a' <= r <= 'z'
    ensures !('A' <= c <= 'Z') ==> r == c
  {
    if 'A' <= c <= 'Z' then (c as int + 32) as char else c
  }

  function ToUpperChar(c: char): (r: char)
    ensures 'a' <= c <= 'z' ==> 'A' <= r <= 'Z'
    ensures !('a' <= c <= 'z') ==> r == c
  {
    if 'a' <= c <= 'z' then (c as int - 32) as char else c
  }

  /** `s.toLowerCase()` on the ASCII letters. */
  function ToLower(s: string): (r: string)
    ensures |r| == |s|
    ensures forall i :: 0 <= i < |s| ==> r[i] == ToLowerChar(s[i])
  {
    seq(|s|, i requires 0 <= i < |s| => ToLowerChar(s[i]))
  }

  /** `s.toUpperCase()` on the ASCII letters. */
  function ToUpper(s: string): (r: string)
    ensures |r| == |s|
    ensures forall i :: 0 <= i < |s| ==> r[i] == ToUpperChar(s[i])
  {
    seq(|s|, i requires 0 <= i < |s| => ToUpperChar(s[i]))
  }

  /** Decimal digits of a natural number, as `String(n)` prints it. */
  function NatToString(n: nat): (r: string)
    ensures |r| >= 1
    ensures forall i :: 0 <= i < |r| ==> '0' <= r[i] <= '9'
  {
    if n < 10 then [Digit(n)] else NatToString(n / 10) + [Digit(n % 10)]
  }

  function Digit(d: nat): (c: char)
    requires d < 10
    ensures '0' <= c <= '9'
  {
    ['0', '1', '2', '3', '4', '5', '6', '7', '8', '9'][d]
  }

  /** `String(n)` for a possibly negative integer. */
  function IntToString(n: int): (r: string)
    ensures |r| >= 1
    ensures n >= 0 <==> r[0] != '-'
  {
    if n >= 0 then NatToString(n) else "-" + NatToString(-n)
  }
}

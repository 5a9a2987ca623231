/**
 * The Python values the program works on, and the few built-in operations
 * on them whose exact behaviour decides what a command does: truthiness,
 * `d.get(k, default)`, `v[k]`, iteration, `k in v`, `str(v)`, `s.strip()`
 * and `s.upper()`.
 *
 * A value produced by `json.loads` is a `Json`. Objects keep their fields in
 * document order, as a Python dict keeps insertion order; a key is read at
 * its first field.
 */
module Py {

  datatype Option<T> = None | Some(value: T)

  datatype Json =
    | JNull
    | JBool(b: bool)
    | JInt(i: int)
    | JStr(s: string)
    | JArr(items: seq<Json>)
    | JObj(fields: seq<(string, Json)>)

  /** How a command invocation ends when it does not run to completion. */
  datatype Failure =
    | Exit(code: int, diagnostic: string)  // `typer.Exit(code)` after printing `diagnostic`
    | GhError(message: string)             // the `GhError` exception, which no caller catches
    | Crash                                // any other uncaught exception (KeyError, TypeError, ...)

  datatype Result<T> = Ok(value: T) | Err(failure: Failure)

  // ---------------------------------------------------------------------------
  // Truthiness and access
  // ---------------------------------------------------------------------------

  /** `bool(v)` */
  predicate Truthy(v: Json) {
    match v
    case JNull => false
    case JBool(b) => b
    case JInt(i) => i != 0
    case JStr(s) => s != ""
    case JArr(items) => items != []
    case JObj(fields) => fields != []
  }

  /** The value stored under `key` in a dict's field list. */
  function Lookup(fields: seq<(string, Json)>, key: string): (r: Option<Json>)
    ensures r.None? <==> forall i :: 0 <= i < |fields| ==> fields[i].0 != key
    ensures r.Some? ==> exists i :: 0 <= i < |fields| && fields[i] == (key, r.value)
  {
    if fields == [] then None
    else if fields[0].0 == key then Some(fields[0].1)
    else
      var r := Lookup(fields[1..], key);
      assert forall i :: 1 <= i < |fields| ==> fields[i] == fields[1..][i - 1];
      r
  }

  /** `v.get(key, default)`; None when `v` is not a dict (AttributeError). */
  function GetOr(v: Json, key: string, default: Json): (r: Option<Json>)
    ensures r.Some? <==> v.JObj?
    ensures v.JObj? && Lookup(v.fields, key).Some? ==> r == Lookup(v.fields, key)
    ensures v.JObj? && Lookup(v.fields, key).None? ==> r == Some(default)
  {
    match v
    case JObj(fields) => (match Lookup(fields, key) case Some(x) => Some(x) case None => Some(default))
    case _ => None
  }

  /** `v[key]` for a string key; None on KeyError or TypeError. */
  function Subscript(v: Json, key: string): (r: Option<Json>)
    ensures r.Some? <==> v.JObj? && Lookup(v.fields, key).Some?
    ensures r.Some? ==> r == Lookup(v.fields, key)
  {
    match v
    case JObj(fields) => Lookup(fields, key)
    case _ => None
  }

  /** `list(v)`: a list yields its items, a dict its keys, a string its
      characters; anything else is not iterable (TypeError). */
  function Iterate(v: Json): (r: Option<seq<Json>>)
    ensures v.JArr? ==> r == Some(v.items)
    ensures r.Some? && v.JObj? ==>
      |r.value| == |v.fields| && forall i :: 0 <= i < |v.fields| ==> r.value[i] == JStr(v.fields[i].0)
    ensures r.Some? && v.JStr? ==>
      |r.value| == |v.s| && forall i :: 0 <= i < |v.s| ==> r.value[i] == JStr([v.s[i]])
    ensures r.None? <==> !(v.JArr? || v.JObj? || v.JStr?)
  {
    match v
    case JArr(items) => Some(items)
    case JObj(fields) => Some(seq(|fields|, i requires 0 <= i < |fields| => JStr(fields[i].0)))
    case JStr(s) => Some(seq(|s|, i requires 0 <= i < |s| => JStr([s[i]])))
    case _ => None
  }

  /** `key in v` for a string `key`; None when `v` supports no `in` (TypeError). */
  function Contains(v: Json, key: string): (r: Option<bool>)
    ensures v.JObj? ==> r == Some(Lookup(v.fields, key).Some?)
    ensures v.JArr? ==> r == Some(JStr(key) in v.items)
    ensures r.None? <==> !(v.JArr? || v.JObj? || v.JStr?)
  {
    match v
    case JObj(fields) => Some(Lookup(fields, key).Some?)
    case JArr(items) => Some(JStr(key) in items)
    case JStr(s) => Some(InStr(key, s))
    case _ => None
  }

  // ---------------------------------------------------------------------------
  // Substrings
  // ---------------------------------------------------------------------------

  /** What a loop over `items` collects, item `k` giving `f(k + 1, items[k])`
      (the numbering of `enumerate(items, 1)`); None when some item raises. */
  function Collect<T>(f: (nat, Json) -> Option<T>, items: seq<Json>): (r: Option<seq<T>>)
    ensures r.Some? <==> forall k :: 0 <= k < |items| ==> f(k + 1, items[k]).Some?
    ensures r.Some? ==> |r.value| == |items|
    ensures r.Some? ==> forall k :: 0 <= k < |items| ==> f(k + 1, items[k]) == Some(r.value[k])
    decreases |items|
  {
    if items == [] then Some([])
    else
      var init := items[..|items| - 1];
      assert forall k :: 0 <= k < |init| ==> init[k] == items[k];
      match Collect(f, init)
      case None => None
      case Some(xs) =>
        match f(|items|, items[|items| - 1])
        case None => None
        case Some(x) => Some(xs + [x])
  }

  /** One more item: the collection grows by its value, or raises with it. */
  lemma CollectStep<T>(f: (nat, Json) -> Option<T>, items: seq<Json>, n: nat)
    requires n < |items|
    ensures Collect(f, items[..n + 1])
      == if Collect(f, items[..n]).Some? && f(n + 1, items[n]).Some?
         then Some(Collect(f, items[..n]).value + [f(n + 1, items[n]).value])
         else None
  {
    var p := items[..n + 1];
    assert p[..|p| - 1] == items[..n] && p[|p| - 1] == items[n];
  }

  /** An item that raises within a prefix makes the whole loop raise. */
  lemma CollectPrefix<T>(f: (nat, Json) -> Option<T>, items: seq<Json>, n: nat)
    requires n <= |items| && Collect(f, items[..n]).None?
    ensures Collect(f, items).None?
  {
    var p := items[..n];
    var k :| 0 <= k < |p| && f(k + 1, p[k]).None?;
    assert p[k] == items[k];
  }

  /** The number of (possibly overlapping) positions at which `p` occurs in `s`. */
  function Occurrences(p: string, s: string): nat
    requires p != ""
    decreases |s|
  {
    if |s| < |p| then 0
    else (if s[..|p|] == p then 1 else 0) + Occurrences(p, s[1..])
  }

  /** The index of the first `/` in `s`, or `|s|` when there is none. */
  function SlashIndex(s: string): (k: nat)
    ensures k <= |s|
    ensures k < |s| ==> s[k] == '/'
    ensures forall i :: 0 <= i < k ==> s[i] != '/'
  {
    if s == [] then 0 else if s[0] == '/' then 0 else 1 + SlashIndex(s[1..])
  }

  /** `p in s` on two strings. */
  predicate InStr(p: string, s: string) {
    p == "" || Occurrences(p, s) > 0
  }

  /** `p` occurs in `s` starting at index `i`. */
  predicate OccursAt(p: string, s: string, i: int) {
    0 <= i <= |s| - |p| && s[i..i + |p|] == p
  }

  /** A slice of the tail is the slice one further along. */
  lemma TailSlice(s: string, i: nat, n: nat)
    requires 1 + i + n <= |s|
    ensures s[1..][i..i + n] == s[i + 1..i + 1 + n]
  {
    var a, b := s[1..][i..i + n], s[i + 1..i + 1 + n];
    assert forall k :: 0 <= k < n ==> a[k] == b[k];
  }

  /** The count is positive exactly when some index starts an occurrence. */
  lemma {:induction false} OccurrencesAt(p: string, s: string)
    requires p != ""
    ensures Occurrences(p, s) > 0 <==> exists i :: OccursAt(p, s, i)
    decreases |s|
  {
    if |s| >= |p| {
      OccurrencesAt(p, s[1..]);
      assert s[0..|p|] == s[..|p|];
      if s[..|p|] == p {
        assert OccursAt(p, s, 0);
      }
      if Occurrences(p, s[1..]) > 0 {
        var i :| OccursAt(p, s[1..], i);
        TailSlice(s, i, |p|);
        assert OccursAt(p, s, i + 1);
      }
      if exists i :: OccursAt(p, s, i) {
        var i :| OccursAt(p, s, i);
        if i == 0 {
          assert s[..|p|] == p;
        } else {
          TailSlice(s, i - 1, |p|);
          assert OccursAt(p, s[1..], i - 1);
        }
      }
    } else {
      assert forall i :: !OccursAt(p, s, i);
    }
  }

  /** A separator character that `p` does not contain splits the count. */
  lemma {:induction false} OccurrencesSplit(p: string, a: string, c: char, b: string)
    requires p != "" && c !in p
    ensures Occurrences(p, a + [c] + b) == Occurrences(p, a) + Occurrences(p, b)
    decreases |a|
  {
    var s := a + [c] + b;
    if a == [] {
      assert s == [c] + b;
      if |s| >= |p| {
        assert s[..|p|][0] == c;
        assert s[..|p|] != p;
        assert s[1..] == b;
      }
    } else {
      OccurrencesSplit(p, a[1..], c, b);
      assert s[1..] == a[1..] + [c] + b;
      if |a| >= |p| {
        assert s[..|p|] == a[..|p|];
      } else if |s| >= |p| {
        assert s[..|p|][|a|] == c;
        assert s[..|p|] != p;
      }
    }
  }

  /** A string whose characters avoid the first one of `p` does not contain `p`. */
  lemma {:induction false} OccurrencesNone(p: string, s: string)
    requires p != "" && p[0] !in s
    ensures Occurrences(p, s) == 0
    decreases |s|
  {
    if |s| >= |p| {
      assert s[..|p|][0] == s[0];
      OccurrencesNone(p, s[1..]);
    }
  }

  lemma OccurrencesSelf(p: string)
    requires p != ""
    ensures Occurrences(p, p) == 1
  {
    assert p[..|p|] == p;
  }

  // ---------------------------------------------------------------------------
  // str(), repr()
  // ---------------------------------------------------------------------------

  function DigitChar(d: nat): char
    requires d < 10
  {
    "0123456789"[d]
  }

  /** Decimal digits of a natural number, as `str(n)` writes them. */
  function NatToString(n: nat): (r: string)
    ensures r != "" && forall i :: 0 <= i < |r| ==> '0' <= r[i] <= '9'
    ensures n >= 10 ==> r[0] != '0'
    decreases n
  {
    if n < 10 then [DigitChar(n)] else NatToString(n / 10) + [DigitChar(n % 10)]
  }

  /** The value a string of decimal digits denotes. */
  function DigitsValue(s: string): nat
    requires forall i :: 0 <= i < |s| ==> '0' <= s[i] <= '9'
  {
    if s == [] then 0 else DigitsValue(s[..|s| - 1]) * 10 + (s[|s| - 1] as int - '0' as int)
  }

  lemma {:induction false} NatToStringRoundTrip(n: nat)
    ensures DigitsValue(NatToString(n)) == n
    decreases n
  {
    if n >= 10 {
      NatToStringRoundTrip(n / 10);
      var r := NatToString(n);
      assert r[..|r| - 1] == NatToString(n / 10);
    }
  }

  /** `str(i)` for an int. */
  function IntToString(i: int): (r: string)
    ensures r != ""
    ensures i < 0 <==> r[0] == '-'
  {
    if i < 0 then "-" + NatToString(-i) else NatToString(i)
  }

  function HexDigit(d: nat): char
    requires d < 16
  {
    "0123456789abcdef"[d]
  }

  /** The escape `repr` writes for one character of a string quoted by `quote`. */
  function CharRepr(c: char, quote: char): (r: string)
    ensures r != []
    ensures (c == quote || c == '\\') ==> r == ['\\', c]
  {
    if c == quote || c == '\\' then ['\\', c]
    else if c == '\t' then "\\t"
    else if c == '\n' then "\\n"
    else if c == '\r' then "\\r"
    else if c < ' ' || c == '\U{7f}' || ('\U{80}' <= c <= '\U{a0}') || c == '\U{ad}' then
      var n := c as int;
      ['\\', 'x', HexDigit(n / 16), HexDigit(n % 16)]
    else [c]
  }

  function CharsRepr(s: string, quote: char): string {
    if s == [] then "" else CharRepr(s[0], quote) + CharsRepr(s[1..], quote)
  }

  /** `repr(s)`: single quotes unless the text holds a single quote and no double quote. */
  function StrRepr(s: string): (r: string)
    ensures |r| >= 2 && r[0] == r[|r| - 1] && r[0] in "'\""
  {
    var quote := if '\'' in s && '"' !in s then '"' else '\'';
    [quote] + CharsRepr(s, quote) + [quote]
  }

  /** `repr(v)` */
  function Repr(v: Json): string
    decreases v, 0
  {
    match v
    case JStr(s) => StrRepr(s)
    case JArr(items) => "[" + ItemsRepr(items) + "]"
    case JObj(fields) => "{" + FieldsRepr(fields) + "}"
    case JNull => "None"
    case JBool(b) => if b then "True" else "False"
    case JInt(i) => IntToString(i)
  }

  function ItemsRepr(items: seq<Json>): string
    decreases items
  {
    if items == [] then ""
    else Repr(items[0]) + (if |items| == 1 then "" else ", " + ItemsRepr(items[1..]))
  }

  function FieldsRepr(fields: seq<(string, Json)>): string
    decreases fields
  {
    if fields == [] then ""
    else
      assert fields[0].1 < fields[0];
      StrRepr(fields[0].0) + ": " + Repr(fields[0].1)
      + (if |fields| == 1 then "" else ", " + FieldsRepr(fields[1..]))
  }

  /** `str(v)`, which is also what an f-string inserts for `{v}`. */
  function Str(v: Json): (r: string)
    ensures v.JStr? ==> r == v.s
    ensures v.JInt? ==> r == IntToString(v.i)
    decreases v, 1
  {
    match v
    case JNull => "None"
    case JBool(b) => if b then "True" else "False"
    case JInt(i) => IntToString(i)
    case JStr(s) => s
    case _ => Repr(v)
  }

  // ---------------------------------------------------------------------------
  // strip(), upper(), join()
  // ---------------------------------------------------------------------------

  /** `c.isspace()`: the characters Python counts as whitespace. */
  predicate IsSpace(c: char) {
    c == ' ' || ('\t' <= c <= '\r') || ('\U{1c}' <= c <= '\U{1f}')
    || c == '\U{85}' || c == '\U{a0}' || c == '\U{1680}'
    || ('\U{2000}' <= c <= '\U{200a}') || c == '\U{2028}' || c == '\U{2029}'
    || c == '\U{202f}' || c == '\U{205f}' || c == '\U{3000}'
  }

  /** The number of whitespace characters `s` starts with. */
  function LeadingSpace(s: string): (n: nat)
    ensures n <= |s|
    ensures forall k :: 0 <= k < n ==> IsSpace(s[k])
    ensures n < |s| ==> !IsSpace(s[n])
    decreases |s|
  {
    if s != [] && IsSpace(s[0]) then
      var n := LeadingSpace(s[1..]);
      assert forall k :: 1 <= k <= n && k < |s| ==> s[k] == s[1..][k - 1];
      1 + n
    else 0
  }

  /** The length of `s` without the whitespace it ends with. */
  function TrailingStart(s: string): (m: nat)
    ensures m <= |s|
    ensures forall k :: m <= k < |s| ==> IsSpace(s[k])
    ensures m > 0 ==> !IsSpace(s[m - 1])
    decreases |s|
  {
    if s != [] && IsSpace(s[|s| - 1]) then
      var m := TrailingStart(s[..|s| - 1]);
      assert forall k :: 0 <= k < |s| - 1 ==> s[k] == s[..|s| - 1][k];
      m
    else |s|
  }

  /** `s.strip()`: the text between the leading and the trailing whitespace. */
  function Strip(s: string): (r: string)
    ensures r == [] || (!IsSpace(r[0]) && !IsSpace(r[|r| - 1]))
    ensures |r| <= |s|
  {
    var t := s[LeadingSpace(s)..];
    t[..TrailingStart(t)]
  }

  /** What `strip` keeps is the slice of `s` between a whitespace prefix and
      a whitespace suffix. */
  lemma StripSlice(s: string)
    ensures var r, i := Strip(s), LeadingSpace(s);
      && i + |r| <= |s| && r == s[i..i + |r|]
      && (forall k :: 0 <= k < i ==> IsSpace(s[k]))
      && (forall k :: i + |r| <= k < |s| ==> IsSpace(s[k]))
  {
    var i := LeadingSpace(s);
    var t := s[i..];
    var m := TrailingStart(t);
    assert t[..m] == s[i..i + m];
    forall k | i + m <= k < |s|
      ensures IsSpace(s[k])
    {
      assert s[k] == t[k - i];
    }
  }

  /** Whitespace after a text that ends in a non-space character is what
      the right-hand strip removes. */
  lemma {:induction false} TrailingPadded(u: string, pad: string)
    requires u != [] && !IsSpace(u[|u| - 1])
    requires forall i :: 0 <= i < |pad| ==> IsSpace(pad[i])
    ensures TrailingStart(u + pad) == |u|
    decreases |pad|
  {
    if pad == [] {
      assert u + pad == u;
    } else {
      assert (u + pad)[..|u + pad| - 1] == u + pad[..|pad| - 1];
      TrailingPadded(u, pad[..|pad| - 1]);
    }
  }

  /** Trailing whitespace after a text that starts and ends with a
      non-space character is what `strip` removes. */
  lemma StripPadded(u: string, pad: string)
    requires u != [] && !IsSpace(u[0]) && !IsSpace(u[|u| - 1])
    requires forall i :: 0 <= i < |pad| ==> IsSpace(pad[i])
    ensures Strip(u + pad) == u
  {
    assert (u + pad)[0] == u[0];
    assert (u + pad)[0..] == u + pad;
    TrailingPadded(u, pad);
    assert (u + pad)[..|u|] == u;
  }

  /** The uppercase of one character, exact wherever the uppercase holds
      only ASCII characters: the ASCII letters and the ten characters whose
      full uppercase is ASCII (such as U+00DF, which becomes "SS"). Any other
      character is kept; its true uppercase holds a non-ASCII character, as
      the character itself does. */
  function UpperChar(c: char): (r: string)
    ensures r != []
  {
    if 'a' <= c <= 'z' then [(c as int - 32) as char]
    else if c == '\U{df}' then "SS"
    else if c == '\U{131}' then "I"
    else if c == '\U{17f}' then "S"
    else if c == '\U{fb00}' then "FF"
    else if c == '\U{fb01}' then "FI"
    else if c == '\U{fb02}' then "FL"
    else if c == '\U{fb03}' then "FFI"
    else if c == '\U{fb04}' then "FFL"
    else if c == '\U{fb05}' || c == '\U{fb06}' then "ST"
    else [c]
  }

  /** `s.upper()`, exact for every comparison against an ASCII text. */
  function Upper(s: string): (r: string)
    ensures |r| >= |s|
  {
    if s == [] then "" else UpperChar(s[0]) + Upper(s[1..])
  }

  /** The uppercase of an ASCII character. */
  function AsciiUpper(c: char): char {
    if 'a' <= c <= 'z' then (c as int - 32) as char else c
  }

  /** `s` equals `t` once its letters are upper-cased one by one. */
  predicate SameUpperAscii(s: string, t: string) {
    |s| == |t| && forall i :: 0 <= i < |s| ==> AsciiUpper(s[i]) == t[i]
  }

  /** On ASCII text `upper` maps letter by letter. */
  lemma {:induction false} UpperAscii(s: string)
    requires forall i :: 0 <= i < |s| ==> s[i] as int < 128
    ensures |Upper(s)| == |s|
    ensures forall i :: 0 <= i < |s| ==> Upper(s)[i] == AsciiUpper(s[i])
  {
    if s != [] {
      UpperAscii(s[1..]);
      assert forall i :: 1 <= i < |s| ==> s[1..][i - 1] == s[i];
    }
  }

  /** On ASCII text, `s.upper() == t` is a letter-by-letter comparison that
      ignores the case of `s`. */
  lemma UpperEquals(s: string, t: string)
    requires forall i :: 0 <= i < |s| ==> s[i] as int < 128
    ensures Upper(s) == t <==> SameUpperAscii(s, t)
  {
    UpperAscii(s);
    if SameUpperAscii(s, t) {
      assert forall i :: 0 <= i < |s| ==> Upper(s)[i] == t[i];
    }
  }

  /** `sep.join(parts)` */
  function Join(parts: seq<string>, sep: string): (r: string)
    ensures parts == [] ==> r == ""
    ensures |parts| == 1 ==> r == parts[0]
  {
    if parts == [] then ""
    else if |parts| == 1 then parts[0]
    else parts[0] + sep + Join(parts[1..], sep)
  }

  /** One more part is joined after the separator. */
  lemma {:induction false} JoinAppend(parts: seq<string>, p: string, sep: string)
    requires parts != []
    ensures Join(parts + [p], sep) == Join(parts, sep) + sep + p
    decreases |parts|
  {
    var ps := parts + [p];
    assert ps[0] == parts[0];
    if |parts| == 1 {
      assert ps[1..] == [p];
    } else {
      assert ps[1..] == parts[1..] + [p];
      JoinAppend(parts[1..], p, sep);
    }
  }

  /** `s[:n]` */
  function Take(s: string, n: nat): (r: string)
    ensures |r| == if |s| < n then |s| else n
    ensures r == s[..|r|]
  {
    if |s| <= n then s else s[..n]
  }
}

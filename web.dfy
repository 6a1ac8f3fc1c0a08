/**
 * The pieces of the browser runtime the React components rely on: what an API call
 * settles to, the array methods `filter`, `some` and `join`, `parseInt`, and the
 * two `localStorage` keys the application uses.
 */
module Web {
  import opened Common
  import opened Text

  /**
   * What an awaited API call gives a handler: a body whose `success` is true, with its
   * payload; a body whose `success` is false; or a rejected request (axios rejects every
   * non-2xx status), carrying the `error` field of the server's body when there was one.
   */
  datatype Reply<T> = Succeeded(payload: T) | Unsuccessful | Failed(serverError: Option<string>)

  // ---------------------------------------------------------------- arrays

  /** `s.filter(keep)`: the kept elements, in order. */
  function Filter<T>(s: seq<T>, keep: T -> bool): (r: seq<T>)
    ensures |r| <= |s|
  {
    if s == [] then [] else (if keep(s[0]) then [s[0]] else []) + Filter(s[1..], keep)
  }

  /** An element survives the filter iff it is in the array and kept. */
  lemma {:induction false} FilterMembers<T>(s: seq<T>, keep: T -> bool, x: T)
    ensures x in Filter(s, keep) <==> x in s && keep(x)
  {
    if s != [] {
      FilterMembers(s[1..], keep, x);
      assert x in s <==> x == s[0] || x in s[1..];
    }
  }

  /** A filter that keeps every element returns the array itself. */
  lemma {:induction false} FilterKeepsAll<T>(s: seq<T>, keep: T -> bool)
    requires forall i :: 0 <= i < |s| ==> keep(s[i])
    ensures Filter(s, keep) == s
  {
    if s != [] {
      assert forall i :: 0 <= i < |s[1..]| ==> keep(s[1..][i]) by {
        forall i | 0 <= i < |s[1..]| ensures keep(s[1..][i]) {
          assert s[1..][i] == s[i + 1];
        }
      }
      FilterKeepsAll(s[1..], keep);
    }
  }

  /** `s.some(p)`, examined from the front. */
  predicate Any<T>(s: seq<T>, p: T -> bool) {
    s != [] && (p(s[0]) || Any(s[1..], p))
  }

  /** `some` holds iff some position satisfies the test. */
  lemma {:induction false} AnyIff<T>(s: seq<T>, p: T -> bool)
    ensures Any(s, p) <==> exists i :: 0 <= i < |s| && p(s[i])
  {
    if s != [] {
      AnyIff(s[1..], p);
      if exists i :: 0 <= i < |s[1..]| && p(s[1..][i]) {
        var i :| 0 <= i < |s[1..]| && p(s[1..][i]);
        assert p(s[i + 1]);
      }
      if exists i :: 0 <= i < |s| && p(s[i]) {
        var i :| 0 <= i < |s| && p(s[i]);
        if i > 0 {
          assert p(s[1..][i - 1]);
        }
      }
    }
  }

  /** `[a, b, c, d].some(p)`. */
  lemma AnyOfFour<T>(a: T, b: T, c: T, d: T, p: T -> bool)
    ensures Any([a, b, c, d], p) <==> p(a) || p(b) || p(c) || p(d)
  {
    var s := [a, b, c, d];
    assert s[1..] == [b, c, d];
    assert [b, c, d][1..] == [c, d];
    assert [c, d][1..] == [d];
    assert [d][1..] == [];
    assert Any([d], p) == p(d);
    assert Any([c, d], p) == (p(c) || p(d));
    assert Any([b, c, d], p) == (p(b) || p(c) || p(d));
  }

  /** `parts.join(sep)`. */
  function Join(parts: seq<string>, sep: string): string {
    if parts == [] then ""
    else if |parts| == 1 then parts[0]
    else parts[0] + sep + Join(parts[1..], sep)
  }

  /** A join of a non-empty list whose first part is non-empty is non-empty. */
  lemma JoinNonEmpty(parts: seq<string>, sep: string)
    requires parts != [] && parts[0] != ""
    ensures Join(parts, sep) != ""
  {
    if |parts| > 1 {
      assert |Join(parts, sep)| >= |parts[0]|;
    }
  }

  // ---------------------------------------------------------------- numbers

  /** A number as `parseInt` produces it: an integer or NaN. */
  datatype JsInt = Int(value: int) | NaN

  /** The text after an optional leading sign. */
  function Unsigned(t: string): (r: string)
    ensures |r| <= |t|
  {
    if t != "" && (t[0] == '-' || t[0] == '+') then t[1..] else t
  }

  /**
   * `parseInt(s)` on decimal text: leading whitespace is skipped, a sign is read, and the
   * longest run of digits after it is the value; without a digit there it is NaN.
   */
  function ParseInt(s: string): (r: JsInt)
    ensures r.NaN? <==> LeadingDigits(Unsigned(TrimStart(s))) == ""
    ensures r.Int? && (TrimStart(s) == "" || TrimStart(s)[0] != '-') ==> r.value >= 0
  {
    var t := TrimStart(s);
    var digits := LeadingDigits(Unsigned(t));
    if digits == "" then NaN
    else if t[0] == '-' then Int(-(DigitsValue(digits) as int))
    else Int(DigitsValue(digits))
  }

  /**
   * `parseInt` reads back what `String(n)` wrote, and stops at the first character that is
   * not a digit, so trailing text is ignored.
   */
  lemma ParseIntOfIntToString(n: int, rest: string)
    requires rest == "" || !IsDigit(rest[0])
    ensures ParseInt(IntToString(n) + rest) == Int(n)
  {
    var m: nat := if n < 0 then -n else n;
    DigitsValueOfNat(m);
    if n < 0 {
      assert IntToString(n) + rest == "-" + (NatToString(m) + rest);
      ParseIntSigned(NatToString(m), rest);
    } else {
      ParseIntDigits(NatToString(m), rest);
    }
  }

  /** `parseInt` of digits followed by a non-digit. */
  lemma ParseIntDigits(digits: string, rest: string)
    requires digits != "" && AllDigits(digits)
    requires rest == "" || !IsDigit(rest[0])
    ensures ParseInt(digits + rest) == Int(DigitsValue(digits))
  {
    var text := digits + rest;
    assert text[0] == digits[0];
    TrimStartKeeps(text);
    assert Unsigned(text) == text;
    LeadingDigitsOfDigits(digits, rest);
  }

  /** `parseInt` of a minus sign, digits, and then a non-digit. */
  lemma ParseIntSigned(digits: string, rest: string)
    requires digits != "" && AllDigits(digits)
    requires rest == "" || !IsDigit(rest[0])
    ensures ParseInt("-" + (digits + rest)) == Int(-(DigitsValue(digits) as int))
  {
    var text := "-" + (digits + rest);
    TrimStartKeeps(text);
    assert Unsigned(text) == digits + rest;
    LeadingDigitsOfDigits(digits, rest);
  }

  /** `n || d` on a parsed number: NaN and 0 are falsy and give `d`. */
  function IntOr(n: JsInt, d: int): (r: int)
    ensures (n.NaN? || n.value == 0) ==> r == d
    ensures (n.Int? && n.value != 0) ==> r == n.value
  {
    if n.NaN? || n.value == 0 then d else n.value
  }

  /** How `JSON.stringify` sends a parsed number: NaN is written as `null`. */
  function ToJson(n: JsInt): (r: Option<int>)
    ensures r.None? <==> n.NaN?
    ensures n.Int? ==> r == Some(n.value)
  {
    if n.NaN? then None else Some(n.value)
  }

  // ---------------------------------------------------------------- storage

  /**
   * The browser's `localStorage`, reduced to the two keys the application writes: the
   * signed-in user (stored as JSON, read back as the same record) and the theme name.
   */
  class BrowserStorage {
    var user: Option<SessionUser>
    var theme: Option<string>

    constructor (user: Option<SessionUser>, theme: Option<string>)
      ensures this.user == user && this.theme == theme
    {
      this.user := user;
      this.theme := theme;
    }
  }
}

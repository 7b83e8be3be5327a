/**
 * Shared vocabulary of the CDF tracker model: optional and failing values, the HTTP
 * errors the routers raise, request-body fields, Python's `str.strip`, ASCII
 * lower-casing, substring search, decimal rendering of integers, and the
 * ordered walks over id-keyed tables that stand in for SQL queries.
 */
module Common {

  datatype Option<T> = None | Some(value: T)

  datatype Result<T, E> = Ok(value: T) | Err(error: E) {
    predicate IsFailure() { Err? }
    function PropagateFailure<U>(): Result<U, E> requires Err? { Err(error) }
    function Extract(): T requires Ok? { value }
  }

  /** An `HTTPException` raised by a route handler: status code and detail text. */
  datatype HttpError = HttpError(code: int, detail: string)

  /** What FastAPI answers when a handler raises an exception it does not catch. */
  const InternalError := HttpError(500, "Internal Server Error")

  /**
   * One key of a JSON request body read with `payload.get(key)`: the key is
   * absent, present with `null`, or present with a string.
   */
  datatype Field = Absent | Null | Text(s: string)

  /** `(payload.get(key) or "")` for a string-valued key. */
  function TextOrEmpty(f: Field): string
  {
    if f.Text? then f.s else ""
  }

  /** `payload.get(key)` for an optional string: None for an absent key or `null`. */
  function FieldValue(f: Field): (r: Option<string>)
    ensures r.Some? <==> f.Text?
    ensures r.Some? ==> r.value == f.s
  {
    if f.Text? then Some(f.s) else None
  }

  /** One field of a partial update (`model_dump(exclude_unset=True)`): left out, or sent. */
  datatype Patch<T> = Unset | Set(value: T)

  /** The value after `setattr` for a sent field, the old value for one left out. */
  function Apply<T>(p: Patch<T>, old_value: T): (r: T)
    ensures p.Unset? ==> r == old_value
    ensures p.Set? ==> r == p.value
  {
    if p.Set? then p.value else old_value
  }

  // ---------------------------------------------------------------------------
  // Whitespace and str.strip()

  /** The characters `str.isspace()` holds for, which `str.strip()` removes. */
  predicate IsSpace(c: char)
  {
    c == ' ' || c == '\t' || c == '\n' || c == '\r' || c == '\U{0B}' || c == '\U{0C}'
    || ('\U{1C}' <= c <= '\U{1F}') || c == '\U{85}' || c == '\U{A0}' || c == '\U{1680}'
    || ('\U{2000}' <= c <= '\U{200A}') || c == '\U{2028}' || c == '\U{2029}' || c == '\U{202F}'
    || c == '\U{205F}' || c == '\U{3000}'
  }

  predicate AllSpace(s: string)
  {
    forall k :: 0 <= k < |s| ==> IsSpace(s[k])
  }

  /** True when `t` is empty or neither starts nor ends with whitespace. */
  predicate Trimmed(t: string)
  {
    t == [] || (!IsSpace(t[0]) && !IsSpace(t[|t| - 1]))
  }

  /** Python's `s.strip()`: drops whitespace from both ends. */
  function Trim(s: string): (r: string)
    ensures Trimmed(r)
    decreases |s|
  {
    if s == [] then s
    else if IsSpace(s[0]) then Trim(s[1..])
    else if IsSpace(s[|s| - 1]) then Trim(s[..|s| - 1])
    else s
  }

  lemma AllSpaceSnoc(t: string, c: char)
    requires IsSpace(c) && AllSpace(t)
    ensures AllSpace(t + [c])
  {
    forall k | 0 <= k < |t + [c]| ensures IsSpace((t + [c])[k]) {
      if k < |t| { assert (t + [c])[k] == t[k]; }
    }
  }

  /** `r` is an infix of `s` with only whitespace before and after it. */
  ghost predicate FramedBy(s: string, r: string)
  {
    exists i, j :: 0 <= i <= j <= |s| && r == s[i..j] && AllSpace(s[..i]) && AllSpace(s[j..])
  }

  lemma FramedFront(c: char, t: string, r: string)
    requires IsSpace(c) && FramedBy(t, r)
    ensures FramedBy([c] + t, r)
  {
    var i, j :| 0 <= i <= j <= |t| && r == t[i..j] && AllSpace(t[..i]) && AllSpace(t[j..]);
    var s := [c] + t;
    assert s[1..] == t;
    var pre := s[..i + 1];
    assert AllSpace(pre) by {
      forall k | 0 <= k < |pre| ensures IsSpace(pre[k]) {
        if k > 0 { assert pre[k] == t[..i][k - 1]; }
      }
    }
    assert s[j + 1..] == t[j..];
    assert r == s[i + 1..j + 1];
  }

  lemma FramedBack(t: string, c: char, r: string)
    requires IsSpace(c) && FramedBy(t, r)
    ensures FramedBy(t + [c], r)
  {
    var i, j :| 0 <= i <= j <= |t| && r == t[i..j] && AllSpace(t[..i]) && AllSpace(t[j..]);
    var s := t + [c];
    assert s[..i] == t[..i];
    assert s[j..] == t[j..] + [c];
    AllSpaceSnoc(t[j..], c);
    assert r == s[i..j];
  }

  /** `strip` returns an infix of its argument framed by whitespace on both sides. */
  lemma {:induction false} TrimFrames(s: string)
    ensures FramedBy(s, Trim(s))
    decreases |s|
  {
    if s == [] {
      assert Trim(s) == s[0..0] && AllSpace(s[..0]) && AllSpace(s[0..]);
    } else if IsSpace(s[0]) {
      TrimFrames(s[1..]);
      assert s == [s[0]] + s[1..];
      FramedFront(s[0], s[1..], Trim(s));
    } else if IsSpace(s[|s| - 1]) {
      TrimFrames(s[..|s| - 1]);
      assert s == s[..|s| - 1] + [s[|s| - 1]];
      FramedBack(s[..|s| - 1], s[|s| - 1], Trim(s));
    } else {
      assert Trim(s) == s[0..|s|] && AllSpace(s[..0]) && AllSpace(s[|s|..]);
    }
  }

  /** A whitespace frame around a trimmed word determines what `strip` returns. */
  lemma {:induction false} TrimOfFramed(p: string, w: string, q: string)
    requires AllSpace(p) && AllSpace(q) && Trimmed(w)
    ensures Trim(p + w + q) == w
    decreases |p| + |q|
  {
    var s := p + w + q;
    if p != [] {
      assert s[0] == p[0];
      assert s[1..] == p[1..] + w + q;
      TrimOfFramed(p[1..], w, q);
    } else if q != [] {
      assert s[|s| - 1] == q[|q| - 1];
      if w == [] {
        assert s == [] + [] + q;
        assert s[1..] == [] + [] + q[1..];
        TrimOfFramed([], [], q[1..]);
      } else {
        assert s[0] == w[0];
        assert s[..|s| - 1] == [] + w + q[..|q| - 1];
        TrimOfFramed([], w, q[..|q| - 1]);
      }
    } else {
      assert s == w;
    }
  }

  /** `strip` leaves nothing exactly when the text is all whitespace. */
  lemma {:induction false} TrimEmptyIffBlank(s: string)
    ensures Trim(s) == [] <==> AllSpace(s)
    decreases |s|
  {
    if s != [] {
      if IsSpace(s[0]) {
        TrimEmptyIffBlank(s[1..]);
        assert AllSpace(s) <==> AllSpace(s[1..]) by {
          if AllSpace(s[1..]) {
            forall k | 0 <= k < |s| ensures IsSpace(s[k]) {
              if k > 0 { assert s[1..][k - 1] == s[k]; }
            }
          }
        }
      } else if IsSpace(s[|s| - 1]) {
        TrimEmptyIffBlank(s[..|s| - 1]);
        assert !AllSpace(s);
        assert !AllSpace(s[..|s| - 1]) by {
          assert s[..|s| - 1][0] == s[0];
        }
      }
    }
  }

  /** `strip` is idempotent. */
  lemma TrimIdempotent(s: string)
    ensures Trim(Trim(s)) == Trim(s)
  {
    var t := Trim(s);
    TrimOfFramed([], t, []);
    assert [] + t + [] == t;
  }

  /** `(value or "").strip() or None`: blank text becomes missing. */
  function BlankToNone(s: string): (r: Option<string>)
    ensures r == None <==> AllSpace(s)
    ensures r.Some? ==> r.value == Trim(s) && r.value != []
  {
    TrimEmptyIffBlank(s);
    var t := Trim(s);
    if t == [] then None else Some(t)
  }

  // ---------------------------------------------------------------------------
  // Case folding and substring search

  /** ASCII `str.lower()` on one character. */
  function LowerChar(c: char): (r: char)
    ensures 'A' <= c <= 'Z' ==> r as int == c as int + 32
    ensures !('A' <= c <= 'Z') ==> r == c
  {
    if 'A' <= c <= 'Z' then (c as int + 32) as char else c
  }

  /** ASCII `str.lower()`. */
  function Lower(s: string): (r: string)
    ensures |r| == |s|
    ensures forall k :: 0 <= k < |s| ==> r[k] == LowerChar(s[k])
  {
    if s == [] then [] else [LowerChar(s[0])] + Lower(s[1..])
  }

  /** `needle` occurs in `hay` starting at index `i`. */
  predicate OccursAt(hay: string, needle: string, i: nat)
  {
    i + |needle| <= |hay| && hay[i..i + |needle|] == needle
  }

  /** `needle` occurs as a contiguous part of `hay`. */
  ghost predicate HasSubstring(hay: string, needle: string)
  {
    exists i: nat :: i <= |hay| && OccursAt(hay, needle, i)
  }

  /** `needle` occurs in `hay` at index `i` or later. */
  predicate OccursFrom(hay: string, needle: string, i: nat)
    decreases |hay| - i
  {
    i + |needle| <= |hay| && (OccursAt(hay, needle, i) || OccursFrom(hay, needle, i + 1))
  }

  /** Substring search by scanning every start position. */
  function Contains(hay: string, needle: string): (r: bool)
    ensures r <==> HasSubstring(hay, needle)
  {
    OccursFromIff(hay, needle, 0);
    OccursFrom(hay, needle, 0)
  }

  lemma {:induction false} OccursFromIff(hay: string, needle: string, i: nat)
    ensures OccursFrom(hay, needle, i) <==> exists k: nat :: i <= k && OccursAt(hay, needle, k)
    decreases |hay| - i
  {
    if i + |needle| <= |hay| {
      OccursFromIff(hay, needle, i + 1);
    }
  }

  /** SQL `column ILIKE '%term%'` for a term free of wildcards: case-insensitive containment. */
  function ContainsIgnoreCase(hay: string, needle: string): (r: bool)
    ensures r <==> HasSubstring(Lower(hay), Lower(needle))
  {
    Contains(Lower(hay), Lower(needle))
  }

  // ---------------------------------------------------------------------------
  // String order (SQL ORDER BY on text, taken in code-point order)

  predicate StrLe(a: string, b: string)
  {
    a == [] || (b != [] && (a[0] < b[0] || (a[0] == b[0] && StrLe(a[1..], b[1..]))))
  }

  lemma {:induction false} StrLeTotal(a: string, b: string)
    ensures StrLe(a, b) || StrLe(b, a)
  {
    if a != [] && b != [] && a[0] == b[0] {
      StrLeTotal(a[1..], b[1..]);
    }
  }

  lemma {:induction false} StrLeTrans(a: string, b: string, c: string)
    requires StrLe(a, b) && StrLe(b, c)
    ensures StrLe(a, c)
  {
    if a != [] && b != [] && c != [] && a[0] == b[0] == c[0] {
      StrLeTrans(a[1..], b[1..], c[1..]);
    }
  }

  // ---------------------------------------------------------------------------
  // Decimal rendering of integers (Python f"{n}")

  function DigitChar(d: nat): (c: char)
    requires d < 10
    ensures '0' <= c <= '9' && c as int - '0' as int == d
  {
    ('0' as int + d) as char
  }

  predicate IsDigit(c: char) { '0' <= c <= '9' }

  predicate AllDigits(s: string) { forall k :: 0 <= k < |s| ==> IsDigit(s[k]) }

  function NatToString(n: nat): (r: string)
    ensures r != [] && AllDigits(r)
  {
    if n < 10 then [DigitChar(n)] else NatToString(n / 10) + [DigitChar(n % 10)]
  }

  /** Value of a non-empty run of decimal digits. */
  function DigitsValue(s: string): nat
    requires s != [] && AllDigits(s)
  {
    var d := s[|s| - 1] as int - '0' as int;
    if |s| == 1 then d else DigitsValue(s[..|s| - 1]) * 10 + d
  }

  lemma {:induction false} NatToStringRoundTrip(n: nat)
    ensures DigitsValue(NatToString(n)) == n
  {
    if n >= 10 {
      NatToStringRoundTrip(n / 10);
      var s := NatToString(n);
      assert s[..|s| - 1] == NatToString(n / 10);
    }
  }

  /** Python's `str(n)` for an int: an optional minus sign and the digits. */
  function IntToString(n: int): (r: string)
    ensures r != []
    ensures forall k :: 0 <= k < |r| ==> IsDigit(r[k]) || (k == 0 && r[k] == '-')
  {
    if n < 0 then "-" + NatToString(-n) else NatToString(n)
  }

  /** Reads back what `IntToString` wrote. */
  function ParseInt(s: string): int
    requires s != []
    requires forall k :: 0 <= k < |s| ==> IsDigit(s[k]) || (k == 0 && s[k] == '-')
  {
    if s[0] == '-' then (if |s| == 1 then 0 else -(DigitsValue(s[1..]) as int)) else DigitsValue(s)
  }

  lemma IntToStringRoundTrip(n: int)
    ensures ParseInt(IntToString(n)) == n
  {
    if n < 0 {
      NatToStringRoundTrip(-n);
      assert IntToString(n)[1..] == NatToString(-n);
    } else {
      NatToStringRoundTrip(n);
    }
  }

  lemma IntToStringInjective(m: int, n: int)
    requires IntToString(m) == IntToString(n)
    ensures m == n
  {
    IntToStringRoundTrip(m);
    IntToStringRoundTrip(n);
  }

  // ---------------------------------------------------------------------------
  // Id-keyed tables

  /** Every id of the table is an autoincrement id already handed out (1 .. next-1). */
  predicate IdsBelow<T>(m: map<int, T>, next: int)
  {
    1 <= next && forall k :: k in m ==> 0 < k < next
  }

  /** The ids of `m` in `[lo, hi)`, ascending (`ORDER BY id`). */
  function KeysAsc<T>(m: map<int, T>, lo: int, hi: int): (r: seq<int>)
    ensures forall i, j :: 0 <= i < j < |r| ==> r[i] < r[j]
    ensures forall i :: 0 <= i < |r| ==> r[i] in m && lo <= r[i] < hi
    ensures forall k :: k in m && lo <= k < hi ==> k in r
    decreases hi - lo
  {
    if lo >= hi then []
    else if lo in m then [lo] + KeysAsc(m, lo + 1, hi)
    else KeysAsc(m, lo + 1, hi)
  }

  /** The ids of `m` in `[lo, hi)`, descending (`ORDER BY id DESC`). */
  function KeysDesc<T>(m: map<int, T>, lo: int, hi: int): (r: seq<int>)
    ensures forall i, j :: 0 <= i < j < |r| ==> r[i] > r[j]
    ensures forall i :: 0 <= i < |r| ==> r[i] in m && lo <= r[i] < hi
    ensures forall k :: k in m && lo <= k < hi ==> k in r
    decreases hi - lo
  {
    if lo >= hi then []
    else if hi - 1 in m then [hi - 1] + KeysDesc(m, lo, hi - 1)
    else KeysDesc(m, lo, hi - 1)
  }

  /** The records of `m` with ids in `[lo, hi)`, by ascending id (`ORDER BY id`). */
  function ValuesAsc<T>(m: map<int, T>, lo: int, hi: int): (r: seq<T>)
    ensures |r| == |KeysAsc(m, lo, hi)|
    ensures forall i :: 0 <= i < |r| ==> r[i] == m[KeysAsc(m, lo, hi)[i]]
  {
    var ids := KeysAsc(m, lo, hi);
    seq(|ids|, i requires 0 <= i < |ids| => m[ids[i]])
  }

  /** Every record with an id in range is listed. */
  lemma ValuesAscComplete<T>(m: map<int, T>, lo: int, hi: int, k: int)
    requires k in m && lo <= k < hi
    ensures m[k] in ValuesAsc(m, lo, hi)
  {
    var ids := KeysAsc(m, lo, hi);
    var i :| 0 <= i < |ids| && ids[i] == k;
    assert ValuesAsc(m, lo, hi)[i] == m[k];
  }

  /** The least id in `[lo, hi)` whose record satisfies `p` (`.where(...).first()`). */
  function FirstWhere<T>(m: map<int, T>, p: T -> bool, lo: int, hi: int): (r: Option<int>)
    ensures r.Some? ==> r.value in m && lo <= r.value < hi && p(m[r.value])
    ensures r.Some? ==> forall k :: lo <= k < r.value && k in m ==> !p(m[k])
    ensures r.None? ==> forall k :: lo <= k < hi && k in m ==> !p(m[k])
    decreases hi - lo
  {
    if lo >= hi then None
    else if lo in m && p(m[lo]) then Some(lo)
    else FirstWhere(m, p, lo + 1, hi)
  }
}

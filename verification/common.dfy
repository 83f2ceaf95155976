/** Shared vocabulary of the storefront model: optional values, HTTP error
    replies, and the handful of sequence and string operations that the route
    handlers and the client code are built from. */
module Common {

  datatype Option<+T> = None | Some(value: T)

  /** The error replies the Express handlers send. `Invalid` is the 400 that
      express-validator produces (an `errors` array, no message);
      `Unauthorized` is the authentication middleware's 401, which carries a
      message. */
  datatype HttpError =
    | Invalid
    | BadRequest(message: string)
    | Unauthorized(message: string)
    | Forbidden(message: string)
    | NotFound(message: string)
    | ServerError

  function Code(e: HttpError): (c: nat)
    ensures 400 <= c <= 500
    ensures c == 500 <==> e.ServerError?
    ensures c == 404 <==> e.NotFound?
  {
    match e
    case Invalid => 400
    case BadRequest(_) => 400
    case Unauthorized(_) => 401
    case Forbidden(_) => 403
    case NotFound(_) => 404
    case ServerError => 500
  }

  datatype Result<+T> = Ok(value: T) | Err(error: HttpError)

  // ---------------------------------------------------------------------------
  // Sequences

  /** The elements of `s` that satisfy `p`, in their original order. */
  function Filter<T>(s: seq<T>, p: T -> bool): (r: seq<T>)
    ensures |r| <= |s|
    ensures forall i :: 0 <= i < |r| ==> r[i] in s && p(r[i])
  {
    if |s| == 0 then [] else (if p(s[0]) then [s[0]] else []) + Filter(s[1..], p)
  }

  lemma FilterKeepsEvery<T>(s: seq<T>, p: T -> bool)
    ensures forall i :: 0 <= i < |s| && p(s[i]) ==> s[i] in Filter(s, p)
  {
    forall i | 0 <= i < |s| && p(s[i])
      ensures s[i] in Filter(s, p)
    {
      FilterKeeps(s, p, i);
    }
  }

  /** Every element of `s` that satisfies `p` is kept. */
  lemma {:induction false} FilterKeeps<T>(s: seq<T>, p: T -> bool, i: nat)
    requires i < |s| && p(s[i])
    ensures s[i] in Filter(s, p)
  {
    if i > 0 {
      FilterKeeps(s[1..], p, i - 1);
    }
  }

  lemma {:induction false} FilterConcat<T>(a: seq<T>, b: seq<T>, p: T -> bool)
    ensures Filter(a + b, p) == Filter(a, p) + Filter(b, p)
  {
    if |a| == 0 {
      assert a + b == b;
    } else {
      var h := if p(a[0]) then [a[0]] else [];
      assert (a + b)[0] == a[0] && (a + b)[1..] == a[1..] + b;
      assert Filter(a + b, p) == h + Filter(a[1..] + b, p);
      FilterConcat(a[1..], b, p);
      assert h + (Filter(a[1..], p) + Filter(b, p)) == (h + Filter(a[1..], p)) + Filter(b, p);
    }
  }

  lemma {:induction false} FilterKeepsAll<T>(s: seq<T>, p: T -> bool)
    requires forall i :: 0 <= i < |s| ==> p(s[i])
    ensures Filter(s, p) == s
  {
    if |s| > 0 {
      FilterKeepsAll(s[1..], p);
    }
  }

  /** Filtering out one element that is the only one failing `p`. */
  lemma {:induction false} FilterDropsOne<T>(a: seq<T>, x: T, b: seq<T>, p: T -> bool)
    requires forall i :: 0 <= i < |a| ==> p(a[i])
    requires !p(x)
    requires forall i :: 0 <= i < |b| ==> p(b[i])
    ensures Filter(a + [x] + b, p) == a + b
    decreases |a|
  {
    if |a| == 0 {
      assert a + [x] + b == [x] + b;
      assert ([x] + b)[1..] == b;
      FilterKeepsAll(b, p);
    } else {
      assert (a + [x] + b)[1..] == a[1..] + [x] + b;
      FilterDropsOne(a[1..], x, b, p);
      assert a + b == [a[0]] + (a[1..] + b);
    }
  }

  /** Filtering keeps the original order: the `k1`-th and `k2`-th kept
      elements, `k1 < k2`, come from positions `a < b` of `s`. */
  lemma {:induction false} FilterInOrder<T>(s: seq<T>, p: T -> bool, k1: nat, k2: nat) returns (a: nat, b: nat)
    requires k1 < k2 < |Filter(s, p)|
    ensures a < b < |s| && s[a] == Filter(s, p)[k1] && s[b] == Filter(s, p)[k2]
    decreases |s|
  {
    var head := if p(s[0]) then [s[0]] else [];
    var t := Filter(s[1..], p);
    assert Filter(s, p) == head + t;
    if |head| == 1 && k1 == 0 {
      assert t[k2 - 1] in s[1..];
      var c :| 0 <= c < |s[1..]| && s[1..][c] == t[k2 - 1];
      a, b := 0, c + 1;
    } else {
      var c, d := FilterInOrder(s[1..], p, k1 - |head|, k2 - |head|);
      a, b := c + 1, d + 1;
    }
  }

  lemma {:induction false} FilterIdempotent<T>(s: seq<T>, p: T -> bool)
    ensures Filter(Filter(s, p), p) == Filter(s, p)
  {
    FilterKeepsAll(Filter(s, p), p);
  }

  /** `f` applied to every element of `s`, in order. */
  function MapSeq<T, U>(s: seq<T>, f: T -> U): (r: seq<U>)
    ensures |r| == |s|
    ensures forall i :: 0 <= i < |s| ==> r[i] == f(s[i])
  {
    if |s| == 0 then [] else [f(s[0])] + MapSeq(s[1..], f)
  }

  function Reverse<T>(s: seq<T>): (r: seq<T>)
    ensures |r| == |s|
    ensures forall i :: 0 <= i < |s| ==> r[i] == s[|s| - 1 - i]
  {
    if |s| == 0 then [] else Reverse(s[1..]) + [s[0]]
  }

  /** The sum of `f` over the elements of `s`. */
  function SumOf<T>(s: seq<T>, f: T -> int): int
  {
    if |s| == 0 then 0 else f(s[0]) + SumOf(s[1..], f)
  }

  lemma {:induction false} SumConcat<T>(a: seq<T>, b: seq<T>, f: T -> int)
    ensures SumOf(a + b, f) == SumOf(a, f) + SumOf(b, f)
  {
    if |a| == 0 {
      assert a + b == b;
    } else {
      assert (a + b)[1..] == a[1..] + b;
      SumConcat(a[1..], b, f);
    }
  }

  /** Summation does not depend on the order of the summands. */
  lemma {:induction false} SumReverse<T>(s: seq<T>, f: T -> int)
    ensures SumOf(Reverse(s), f) == SumOf(s, f)
  {
    if |s| > 0 {
      SumReverse(s[1..], f);
      SumConcat(Reverse(s[1..]), [s[0]], f);
    }
  }

  /** Congruence: two summands that agree on every element give one sum. */
  lemma {:induction false} SumCongruent<T>(s: seq<T>, f: T -> int, g: T -> int)
    requires forall i :: 0 <= i < |s| ==> f(s[i]) == g(s[i])
    ensures SumOf(s, f) == SumOf(s, g)
  {
    if |s| > 0 {
      SumCongruent(s[1..], f, g);
    }
  }

  /** Summing after a map is summing the composition. */
  lemma {:induction false} SumMapSeq<T, U>(s: seq<T>, f: T -> U, g: U -> int, h: T -> int)
    requires forall i :: 0 <= i < |s| ==> h(s[i]) == g(f(s[i]))
    ensures SumOf(MapSeq(s, f), g) == SumOf(s, h)
  {
    if |s| > 0 {
      assert MapSeq(s, f)[1..] == MapSeq(s[1..], f);
      SumMapSeq(s[1..], f, g, h);
    }
  }

  /** A relation that holds of every ordered pair of `s` still holds of
      every ordered pair of a filtered `s`. */
  lemma {:induction false} FilterPairwise<T>(s: seq<T>, p: T -> bool, rel: (T, T) -> bool)
    requires forall i, j :: 0 <= i < j < |s| ==> rel(s[i], s[j])
    ensures forall i, j :: 0 <= i < j < |Filter(s, p)| ==> rel(Filter(s, p)[i], Filter(s, p)[j])
  {
    if |s| > 0 {
      FilterPairwise(s[1..], p, rel);
      var rest := Filter(s[1..], p);
      if p(s[0]) {
        var r := Filter(s, p);
        assert r == [s[0]] + rest;
        forall i, j | 0 <= i < j < |r|
          ensures rel(r[i], r[j])
        {
          if i == 0 {
            assert r[j] == rest[j - 1];
            assert rest[j - 1] in s[1..];
            var k :| 0 <= k < |s[1..]| && s[1..][k] == rest[j - 1];
            assert s[k + 1] == r[j];
            assert rel(s[0], s[k + 1]);
          } else {
            assert r[i] == rest[i - 1] && r[j] == rest[j - 1];
            assert rel(rest[i - 1], rest[j - 1]);
          }
        }
      } else {
        assert Filter(s, p) == rest;
      }
    }
  }

  /** No two elements of `s` share a key. */
  ghost predicate UniqueBy<T, K>(s: seq<T>, key: T -> K)
    decreases |s|
  {
    |s| == 0 || ((forall i :: 1 <= i < |s| ==> key(s[i]) != key(s[0])) && UniqueBy(s[1..], key))
  }

  lemma {:induction false} UniqueByIndex<T, K>(s: seq<T>, key: T -> K, i: nat, j: nat)
    requires UniqueBy(s, key) && i < |s| && j < |s|
    requires key(s[i]) == key(s[j])
    ensures i == j
  {
    if i > 0 && j > 0 {
      UniqueByIndex(s[1..], key, i - 1, j - 1);
    }
  }

  lemma {:induction false} UniqueByFilter<T, K>(s: seq<T>, key: T -> K, p: T -> bool)
    requires UniqueBy(s, key)
    ensures UniqueBy(Filter(s, p), key)
  {
    if |s| > 0 {
      UniqueByFilter(s[1..], key, p);
      var rest := Filter(s[1..], p);
      if p(s[0]) {
        var r := Filter(s, p);
        assert r == [s[0]] + rest;
        assert r[1..] == rest;
        forall i | 1 <= i < |r|
          ensures key(r[i]) != key(r[0])
        {
          assert r[i] == rest[i - 1];
          assert rest[i - 1] in s[1..];
        }
      } else {
        assert Filter(s, p) == rest;
      }
    }
  }

  lemma {:induction false} UniqueByAppend<T, K>(s: seq<T>, x: T, key: T -> K)
    requires UniqueBy(s, key)
    requires forall i :: 0 <= i < |s| ==> key(s[i]) != key(x)
    ensures UniqueBy(s + [x], key)
  {
    if |s| > 0 {
      assert (s + [x])[1..] == s[1..] + [x];
      UniqueByAppend(s[1..], x, key);
    }
  }

  lemma {:induction false} UniqueByMapSeq<T, K>(s: seq<T>, f: T -> T, key: T -> K)
    requires UniqueBy(s, key)
    requires forall i :: 0 <= i < |s| ==> key(f(s[i])) == key(s[i])
    ensures UniqueBy(MapSeq(s, f), key)
  {
    if |s| > 0 {
      assert MapSeq(s, f)[1..] == MapSeq(s[1..], f);
      UniqueByMapSeq(s[1..], f, key);
    }
  }

  lemma {:induction false} UniqueByUpdate<T, K>(s: seq<T>, i: nat, x: T, key: T -> K)
    requires UniqueBy(s, key) && i < |s|
    requires key(x) == key(s[i])
    ensures UniqueBy(s[i := x], key)
  {
    if i == 0 {
      assert s[i := x][1..] == s[1..];
    } else {
      assert s[i := x][1..] == s[1..][i - 1 := x];
      UniqueByUpdate(s[1..], i - 1, x, key);
    }
  }

  // ---------------------------------------------------------------------------
  // Strings

  predicate StartsWith(s: string, prefix: string)
  {
    |prefix| <= |s| && s[..|prefix|] == prefix
  }

  predicate EndsWith(s: string, suffix: string)
  {
    |suffix| <= |s| && s[|s| - |suffix|..] == suffix
  }

  /** JavaScript's `String.prototype.includes`. */
  predicate Contains(s: string, sub: string)
    decreases |s|
  {
    StartsWith(s, sub) || (|s| > 0 && Contains(s[1..], sub))
  }

  function LowerChar(c: char): char
  {
    if 'A' <= c <= 'Z' then (c as int + 32) as char else c
  }

  /** ASCII lower-casing, enough for the case-insensitive extension match. */
  function ToLower(s: string): (r: string)
    ensures |r| == |s|
    ensures forall i :: 0 <= i < |s| ==> r[i] == LowerChar(s[i])
  {
    if |s| == 0 then "" else [LowerChar(s[0])] + ToLower(s[1..])
  }

  /** JavaScript's white space and line terminators: the `\s` class that
      `String.prototype.trim`, express-validator's `trim()` and `parseInt`
      all skip. Besides the ASCII ones this includes the no-break space,
      the byte-order mark and the other Unicode space separators. */
  predicate IsSpace(c: char)
  {
    || c == '\t' || c == '\U{B}' || c == '\U{C}' || c == ' ' || c == '\U{A0}' || c == '\U{FEFF}'
    || c == '\U{1680}' || '\U{2000}' <= c <= '\U{200A}' || c == '\U{202F}' || c == '\U{205F}' || c == '\U{3000}'
    || c == '\n' || c == '\r' || c == '\U{2028}' || c == '\U{2029}'
  }

  /** `s` without its leading run of white space. */
  function TrimStart(s: string): (r: string)
    ensures |r| <= |s|
    ensures r == s[|s| - |r|..]
    ensures |r| > 0 ==> !IsSpace(r[0])
  {
    if |s| > 0 && IsSpace(s[0]) then TrimStart(s[1..]) else s
  }

  /** `s` without its trailing run of white space. */
  function TrimEnd(s: string): (r: string)
    ensures |r| <= |s|
    ensures r == s[..|r|]
    ensures |r| > 0 ==> !IsSpace(r[|r| - 1])
  {
    if |s| > 0 && IsSpace(s[|s| - 1]) then TrimEnd(s[..|s| - 1]) else s
  }

  /** `TrimStart` removes white space only. */
  lemma {:induction false} TrimStartCutsSpace(s: string)
    ensures forall k :: 0 <= k < |s| - |TrimStart(s)| ==> IsSpace(s[k])
  {
    if |s| > 0 && IsSpace(s[0]) {
      TrimStartCutsSpace(s[1..]);
      assert forall k :: 1 <= k < |s| ==> s[k] == s[1..][k - 1];
    }
  }

  /** `TrimEnd` removes white space only. */
  lemma {:induction false} TrimEndCutsSpace(s: string)
    ensures forall k :: |TrimEnd(s)| <= k < |s| ==> IsSpace(s[k])
  {
    if |s| > 0 && IsSpace(s[|s| - 1]) {
      TrimEndCutsSpace(s[..|s| - 1]);
    }
  }

  /** JavaScript's `trim()`: white space in the sense of `IsSpace` is cut
      from both ends. */
  function Trim(s: string): (r: string)
    ensures |r| <= |s|
    ensures |r| > 0 ==> !IsSpace(r[0]) && !IsSpace(r[|r| - 1])
  {
    TrimEnd(TrimStart(s))
  }

  /** A trimmed string is its own trim, so the validators' sanitising is
      idempotent. */
  lemma TrimIdempotent(s: string)
    ensures Trim(Trim(s)) == Trim(s)
  {
    var t := Trim(s);
    if |t| > 0 {
      assert !IsSpace(t[0]);
      assert TrimStart(t) == t;
      assert TrimEnd(t) == t;
    }
  }

  /** The text-presentation and emoji-presentation variation selectors,
      U+FE0E and U+FE0F. */
  predicate IsVariationSelector(c: char)
  {
    c == '\U{FE0E}' || c == '\U{FE0F}'
  }

  /** The length validator.js's `isLength` compares with its bounds: the
      string's code points (a surrogate pair counts once), not counting the
      variation selectors. */
  function IsLengthCount(s: string): (n: nat)
    ensures n <= |s|
  {
    if |s| == 0 then 0
    else IsLengthCount(s[..|s| - 1]) + (if IsVariationSelector(s[|s| - 1]) then 0 else 1)
  }

  function NotSelector(c: char): bool
  {
    !IsVariationSelector(c)
  }

  /** The measure is the number of characters that are not variation
      selectors. */
  lemma {:induction false} IsLengthCountsNonSelectors(s: string)
    ensures IsLengthCount(s) == |Filter(s, NotSelector)|
    decreases |s|
  {
    if |s| > 0 {
      var init, last := s[..|s| - 1], s[|s| - 1];
      assert s == init + [last];
      FilterConcat(init, [last], NotSelector);
      assert Filter([last], NotSelector) == (if NotSelector(last) then [last] else []) by {
        assert [last][1..] == [];
      }
      IsLengthCountsNonSelectors(init);
    }
  }

  /** `isLength({ min: 1 })` fails exactly on strings made only of variation
      selectors, the empty string included. */
  lemma {:induction false} IsLengthZero(s: string)
    ensures IsLengthCount(s) == 0 <==> forall i :: 0 <= i < |s| ==> IsVariationSelector(s[i])
    decreases |s|
  {
    if |s| > 0 {
      var init := s[..|s| - 1];
      IsLengthZero(init);
      assert forall i :: 0 <= i < |init| ==> init[i] == s[i];
    }
  }

  /** Appending a variation selector leaves the measure as it was; any other
      character adds one. */
  lemma IsLengthAppend(s: string, c: char)
    ensures IsLengthCount(s + [c]) == IsLengthCount(s) + (if IsVariationSelector(c) then 0 else 1)
  {
    assert (s + [c])[..|s|] == s;
  }

  /** The decimal digit for `d`. */
  function DigitChar(d: nat): (c: char)
    requires d < 10
    ensures '0' <= c <= '9' && c as int - '0' as int == d
  {
    ('0' as int + d) as char
  }

  /** The decimal rendering JavaScript uses when a number is interpolated
      into a template string. */
  function NatToString(n: nat): (r: string)
    ensures |r| >= 1
    ensures forall i :: 0 <= i < |r| ==> '0' <= r[i] <= '9'
    decreases n
  {
    if n < 10 then [DigitChar(n)] else NatToString(n / 10) + [DigitChar(n % 10)]
  }
}

/** Shared vocabulary of the backend handlers and the front-end components:
    optional values (a SQL NULL, an absent JSON key, a React `null`), calendar
    dates, the HTTP response envelope, the collation orders used by the
    `ORDER BY` clauses, and an insertion sort that stands for them. */
module Common {

  datatype Option<T> = None | Some(value: T)

  /** A calendar date (a `DATE` column or an ISO `YYYY-MM-DD` string). */
  datatype Date = Date(year: int, month: int, day: int)

  /** Chronological order of dates. */
  predicate DateLe(a: Date, b: Date)
  {
    a.year < b.year
    || (a.year == b.year && (a.month < b.month || (a.month == b.month && a.day <= b.day)))
  }

  /** The HTTP verb of a request; `Other` is any verb no handler names. */
  datatype Method = Get | Post | Put | Delete | Options | Other(verb: string)

  /** Why a handler answered with an error status. */
  datatype Failure =
    | MethodNotSupported   // 405 "Метод не поддерживается"
    | MaterialIdRequired   // 400 "Material ID required"
    | BadCredentials       // 401 "Неверный логин или пароль"
    | UserNotFound         // 404 "Пользователь не найден"
    | RowMissing           // 500: the handler subscripted the result of a SELECT that found no row
    | NullQuantity         // 500: the handler compared against a NULL quantity

  /** The JSON body of a response. `Data` carries the handler's payload. */
  datatype Body<T> =
    | NoContent
    | Success
    | SuccessId(id: int)
    | Data(value: T)
    | Error(failure: Failure)

  datatype Response<T> = Response(statusCode: int, body: Body<T>)

  /** How a browser `fetch` ended: it threw, or a response arrived whose
      `ok` flag says whether the status was 2xx. */
  datatype FetchResult = NetworkError | Answered(ok: bool)

  /** The answer every handler gives to a CORS preflight. */
  function Preflight<T>(): (r: Response<T>)
    ensures r.statusCode == 200 && r.body.NoContent?
  {
    Response(200, NoContent)
  }

  /** The answer every handler gives to a verb it does not handle. */
  function NotSupported<T>(): (r: Response<T>)
    ensures r.statusCode == 405 && r.body == Error(MethodNotSupported)
  {
    Response(405, Error(MethodNotSupported))
  }

  // ---------------------------------------------------------------------------
  // Reversal: a table is kept in insertion order, so `ORDER BY created_at DESC`
  // lists it reversed.

  function Reverse<T>(s: seq<T>): (r: seq<T>)
    ensures |r| == |s|
    ensures forall i :: 0 <= i < |s| ==> r[i] == s[|s| - 1 - i]
  {
    if s == [] then [] else Reverse(s[1..]) + [s[0]]
  }

  lemma ReverseMembers<T>(s: seq<T>)
    ensures forall x :: x in Reverse(s) <==> x in s
  {
    var r := Reverse(s);
    forall x | x in s ensures x in r {
      var k :| 0 <= k < |s| && s[k] == x;
      assert r[|s| - 1 - k] == x;
    }
  }

  // ---------------------------------------------------------------------------
  // Collation of text: code-point lexicographic order.

  /** `a` sorts no later than `b`. */
  predicate StrLe(a: string, b: string)
  {
    a == [] || (b != [] && (a[0] < b[0] || (a[0] == b[0] && StrLe(a[1..], b[1..]))))
  }

  lemma {:induction false} StrLeTotal(a: string, b: string)
    ensures StrLe(a, b) || StrLe(b, a)
  {
    if a != [] && b != [] && a[0] == b[0] {
      StrLeTotal(a[1..], b[1..]);
    }
  }

  lemma {:induction false} StrLeTransitive(a: string, b: string, c: string)
    requires StrLe(a, b) && StrLe(b, c)
    ensures StrLe(a, c)
  {
    if a != [] && b != [] && c != [] && a[0] == b[0] && b[0] == c[0] {
      StrLeTransitive(a[1..], b[1..], c[1..]);
    }
  }

  /** Ascending order of a nullable text column; NULL sorts last. */
  predicate NullsLastLe(a: Option<string>, b: Option<string>)
  {
    match (a, b)
    case (Some(x), Some(y)) => StrLe(x, y)
    case (Some(_), None) => true
    case (None, None) => true
    case (None, Some(_)) => false
  }

  lemma NullsLastTotal(a: Option<string>, b: Option<string>)
    ensures NullsLastLe(a, b) || NullsLastLe(b, a)
  {
    if a.Some? && b.Some? { StrLeTotal(a.value, b.value); }
  }

  lemma NullsLastTransitive(a: Option<string>, b: Option<string>, c: Option<string>)
    requires NullsLastLe(a, b) && NullsLastLe(b, c)
    ensures NullsLastLe(a, c)
  {
    if a.Some? && b.Some? && c.Some? { StrLeTransitive(a.value, b.value, c.value); }
  }

  // ---------------------------------------------------------------------------
  // Sorting by a total preorder: a stable insertion sort. It stands for
  // `ORDER BY` and for `Array.prototype.sort` with a comparator.

  ghost predicate TotalPreorder<T(!new)>(le: (T, T) -> bool)
  {
    && (forall a, b :: le(a, b) || le(b, a))
    && (forall a, b, c :: le(a, b) && le(b, c) ==> le(a, c))
  }

  predicate SortedBy<T>(s: seq<T>, le: (T, T) -> bool)
  {
    forall i, j :: 0 <= i < j < |s| ==> le(s[i], s[j])
  }

  /** Inserts `x` after every element that sorts no later than it. */
  function InsertBy<T>(x: T, s: seq<T>, le: (T, T) -> bool): (r: seq<T>)
    ensures multiset(r) == multiset(s) + multiset{x}
  {
    if s == [] then [x]
    else if le(s[0], x) then
      assert s == [s[0]] + s[1..];
      [s[0]] + InsertBy(x, s[1..], le)
    else [x] + s
  }

  function SortBy<T>(s: seq<T>, le: (T, T) -> bool): (r: seq<T>)
    ensures multiset(r) == multiset(s)
  {
    if s == [] then []
    else
      assert s == s[..|s| - 1] + [s[|s| - 1]];
      InsertBy(s[|s| - 1], SortBy(s[..|s| - 1], le), le)
  }

  lemma {:induction false} InsertBySorted<T(!new)>(x: T, s: seq<T>, le: (T, T) -> bool)
    requires TotalPreorder(le) && SortedBy(s, le)
    ensures SortedBy(InsertBy(x, s, le), le)
  {
    if s != [] && le(s[0], x) {
      var rest := InsertBy(x, s[1..], le);
      InsertBySorted(x, s[1..], le);
      forall y | y in rest ensures le(s[0], y) {
        assert y in multiset(rest);
        assert y in multiset(s[1..]) + multiset{x};
        if y in s[1..] {
          var k :| 0 <= k < |s[1..]| && s[1..][k] == y;
          assert s[k + 1] == y;
        }
      }
    }
  }

  /** `SortBy` orders its input by any total preorder and keeps every element. */
  lemma {:induction false} SortBySorted<T(!new)>(s: seq<T>, le: (T, T) -> bool)
    requires TotalPreorder(le)
    ensures SortedBy(SortBy(s, le), le)
    ensures multiset(SortBy(s, le)) == multiset(s)
  {
    if s != [] {
      SortBySorted(s[..|s| - 1], le);
      InsertBySorted(s[|s| - 1], SortBy(s[..|s| - 1], le), le);
    }
  }

  /** Membership is what a permutation preserves. */
  lemma SameMembers<T>(a: seq<T>, b: seq<T>)
    requires multiset(a) == multiset(b)
    ensures forall x :: x in a <==> x in b
  {
    forall x ensures x in a <==> x in b {
      assert x in a <==> x in multiset(a);
      assert x in b <==> x in multiset(b);
    }
  }

  // ---------------------------------------------------------------------------
  // Row selection: `WHERE` clauses, `Array.prototype.filter` and `find`.

  /** `body.get(key, default)`: the supplied value, else the default. */
  function GetOr<T>(o: Option<T>, default: T): (r: T)
    ensures o.Some? ==> r == o.value
    ensures o.None? ==> r == default
  {
    if o.Some? then o.value else default
  }

  /** The elements satisfying `p`, in their original order. */
  function FilterBy<T(!new)>(s: seq<T>, p: T -> bool): (r: seq<T>)
    ensures |r| <= |s|
    ensures forall x :: x in r <==> x in s && p(x)
  {
    if s == [] then []
    else if p(s[0]) then [s[0]] + FilterBy(s[1..], p)
    else FilterBy(s[1..], p)
  }

  /** Strictly increasing in `key` along the sequence. */
  predicate IncreasingBy<T>(s: seq<T>, key: T -> int)
  {
    forall i, j :: 0 <= i < j < |s| ==> key(s[i]) < key(s[j])
  }

  /** `a` is `b` with some elements dropped and the rest kept in order. */
  predicate IsSubsequence<T(==)>(a: seq<T>, b: seq<T>)
    decreases |b|
  {
    if a == [] then true
    else if b == [] then false
    else (a[0] == b[0] && IsSubsequence(a[1..], b[1..])) || IsSubsequence(a, b[1..])
  }

  /** Filtering keeps the order of the rows it keeps. */
  lemma {:induction false} FilterIncreasing<T(!new)>(s: seq<T>, p: T -> bool, key: T -> int)
    requires IncreasingBy(s, key)
    ensures IncreasingBy(FilterBy(s, p), key)
  {
    if s != [] {
      FilterIncreasing(s[1..], p, key);
      if p(s[0]) {
        var r := FilterBy(s, p);
        forall j | 0 < j < |r| ensures key(r[0]) < key(r[j]) {
          assert r[j] in FilterBy(s[1..], p);
        }
      }
    }
  }

  /** A subsequence holds only elements of the sequence it came from. */
  lemma {:induction false} SubsequenceMembers<T>(a: seq<T>, b: seq<T>)
    requires IsSubsequence(a, b)
    ensures forall x :: x in a ==> x in b
    decreases |b|
  {
    if a != [] {
      if a[0] == b[0] && IsSubsequence(a[1..], b[1..]) {
        SubsequenceMembers(a[1..], b[1..]);
        forall x | x in a ensures x in b {
          if x != a[0] { assert x in a[1..]; }
        }
      } else {
        SubsequenceMembers(a, b[1..]);
      }
    }
  }

  /** Dropping rows keeps a strictly increasing key strictly increasing. */
  lemma {:induction false} SubsequenceIncreasing<T>(a: seq<T>, b: seq<T>, key: T -> int)
    requires IsSubsequence(a, b) && IncreasingBy(b, key)
    ensures IncreasingBy(a, key)
    decreases |b|
  {
    if a != [] {
      assert IncreasingBy(b[1..], key) by {
        forall i, j | 0 <= i < j < |b[1..]| ensures key(b[1..][i]) < key(b[1..][j]) {
          assert b[1..][i] == b[i + 1] && b[1..][j] == b[j + 1];
        }
      }
      if a[0] == b[0] && IsSubsequence(a[1..], b[1..]) {
        SubsequenceIncreasing(a[1..], b[1..], key);
        SubsequenceMembers(a[1..], b[1..]);
        forall j | 0 < j < |a| ensures key(a[0]) < key(a[j]) {
          assert a[j] == a[1..][j - 1] && a[j] in a[1..];
          assert a[j] in b[1..];
          var k :| 0 <= k < |b[1..]| && b[1..][k] == a[j];
          assert b[k + 1] == a[j];
        }
        forall i, j | 0 <= i < j < |a| ensures key(a[i]) < key(a[j]) {
          if i > 0 {
            assert a[i] == a[1..][i - 1] && a[j] == a[1..][j - 1];
          }
        }
      } else {
        SubsequenceIncreasing(a, b[1..], key);
      }
    }
  }

  /** Every key strictly increases along `s` and lies below `bound`: the
      shape of a serial id or an insertion timestamp. */
  predicate StampedBelow<T>(s: seq<T>, key: T -> int, bound: int)
  {
    IncreasingBy(s, key) && forall i :: 0 <= i < |s| ==> key(s[i]) < bound
  }

  /** Appending a row stamped with the bound, then advancing the bound. */
  lemma StampedAppend<T>(s: seq<T>, x: T, key: T -> int, bound: int)
    requires StampedBelow(s, key, bound) && key(x) == bound
    ensures StampedBelow(s + [x], key, bound + 1)
  {
    var r := s + [x];
    forall i, j | 0 <= i < j < |r| ensures key(r[i]) < key(r[j]) {
      if j < |s| {
        assert r[i] == s[i] && r[j] == s[j];
      } else {
        assert r[i] == s[i];
      }
    }
  }

  /** An update in place that keeps every row's key keeps the stamps. */
  lemma StampedKept<T>(s: seq<T>, r: seq<T>, key: T -> int, bound: int, bound': int)
    requires StampedBelow(s, key, bound) && bound <= bound'
    requires |r| == |s| && forall i :: 0 <= i < |s| ==> key(r[i]) == key(s[i])
    ensures StampedBelow(r, key, bound')
  {
  }

  /** Deleting rows keeps the stamps. */
  lemma StampedSubsequence<T>(a: seq<T>, b: seq<T>, key: T -> int, bound: int)
    requires IsSubsequence(a, b) && StampedBelow(b, key, bound)
    ensures StampedBelow(a, key, bound)
  {
    SubsequenceIncreasing(a, b, key);
    SubsequenceMembers(a, b);
    forall i | 0 <= i < |a| ensures key(a[i]) < bound {
      assert a[i] in a && a[i] in b;
      var k :| 0 <= k < |b| && b[k] == a[i];
    }
  }

  lemma {:induction false} FilterIsSubsequence<T(!new)>(s: seq<T>, p: T -> bool)
    ensures IsSubsequence(FilterBy(s, p), s)
  {
    if s != [] {
      FilterIsSubsequence(s[1..], p);
      if p(s[0]) {
        assert FilterBy(s, p)[1..] == FilterBy(s[1..], p);
      }
    }
  }

  lemma {:induction false} FilterIdempotent<T(!new)>(s: seq<T>, p: T -> bool)
    ensures FilterBy(FilterBy(s, p), p) == FilterBy(s, p)
  {
    if s != [] {
      FilterIdempotent(s[1..], p);
      if p(s[0]) {
        assert FilterBy(s, p)[1..] == FilterBy(s[1..], p);
      }
    }
  }

  /** Filtering by `p` and then by `q` keeps what satisfies both. */
  lemma {:induction false} FilterFuse<T(!new)>(s: seq<T>, p: T -> bool, q: T -> bool, pq: T -> bool)
    requires forall x :: pq(x) == (p(x) && q(x))
    ensures FilterBy(FilterBy(s, p), q) == FilterBy(s, pq)
  {
    if s != [] {
      FilterFuse(s[1..], p, q, pq);
    }
  }

  /** Two predicates that agree everywhere filter alike. */
  lemma {:induction false} FilterSame<T(!new)>(s: seq<T>, p: T -> bool, q: T -> bool)
    requires forall x :: p(x) == q(x)
    ensures FilterBy(s, p) == FilterBy(s, q)
  {
    if s != [] {
      FilterSame(s[1..], p, q);
    }
  }

  /** The tail of an increasing sequence is increasing. */
  lemma IncreasingTail<T>(s: seq<T>, key: T -> int)
    requires s != [] && IncreasingBy(s, key)
    ensures IncreasingBy(s[1..], key)
  {
    var t := s[1..];
    forall i, j | 0 <= i < j < |t| ensures key(t[i]) < key(t[j]) {
      assert t[i] == s[i + 1] && t[j] == s[j + 1];
    }
  }

  /** An element keyed below everything in an increasing sequence can go
      in front of it. */
  lemma IncreasingCons<T>(x: T, s: seq<T>, key: T -> int)
    requires IncreasingBy(s, key) && forall y :: y in s ==> key(x) < key(y)
    ensures IncreasingBy([x] + s, key)
  {
    var r := [x] + s;
    forall i, j | 0 <= i < j < |r| ensures key(r[i]) < key(r[j]) {
      assert r[j] == s[j - 1] && s[j - 1] in s;
    }
  }

  /** When no element satisfies `p`, filtering keeps nothing. */
  lemma {:induction false} FilterNone<T(!new)>(s: seq<T>, p: T -> bool)
    requires forall i :: 0 <= i < |s| ==> !p(s[i])
    ensures FilterBy(s, p) == []
  {
    if s != [] {
      FilterNone(s[1..], p);
    }
  }

  /** When exactly one element satisfies `p`, filtering keeps just that one. */
  lemma {:induction false} FilterSingle<T(!new)>(s: seq<T>, p: T -> bool, k: int)
    requires 0 <= k < |s| && p(s[k])
    requires forall i :: 0 <= i < |s| && i != k ==> !p(s[i])
    ensures FilterBy(s, p) == [s[k]]
  {
    if k == 0 {
      FilterNone(s[1..], p);
    } else {
      FilterSingle(s[1..], p, k - 1);
    }
  }

  /** A sequence strictly increasing in some key holds each element at most
      once. */
  lemma {:induction false} IncreasingOnce<T>(s: seq<T>, key: T -> int)
    requires IncreasingBy(s, key)
    ensures forall x :: multiset(s)[x] <= 1
  {
    if s != [] {
      IncreasingOnce(s[1..], key);
      assert s == [s[0]] + s[1..];
      assert s[0] !in s[1..];
    }
  }

  /** A predicate that holds everywhere on `s` filters nothing out. */
  lemma {:induction false} FilterAll<T(!new)>(s: seq<T>, p: T -> bool)
    requires forall i :: 0 <= i < |s| ==> p(s[i])
    ensures FilterBy(s, p) == s
  {
    if s != [] {
      FilterAll(s[1..], p);
    }
  }

  /** The first element satisfying `p`, if any. */
  function FindFirst<T(!new)>(s: seq<T>, p: T -> bool): (r: Option<T>)
    ensures r.Some? ==> r.value in s && p(r.value)
    ensures r.None? <==> forall x :: x in s ==> !p(x)
    ensures r.Some? ==> exists k :: 0 <= k < |s| && s[k] == r.value && forall j :: 0 <= j < k ==> !p(s[j])
  {
    if s == [] then None
    else if p(s[0]) then Some(s[0])
    else
      var r := FindFirst(s[1..], p);
      assert r.Some? ==> exists k :: 0 <= k < |s[1..]| && s[1..][k] == r.value && forall j :: 0 <= j < k ==> !p(s[1..][j]);
      r
  }

  /** Every element satisfying `p` replaced by `f` of it; the rest unchanged. */
  function UpdateWhere<T>(s: seq<T>, p: T -> bool, f: T -> T): (r: seq<T>)
    ensures |r| == |s|
    ensures forall i :: 0 <= i < |s| ==> r[i] == if p(s[i]) then f(s[i]) else s[i]
  {
    seq(|s|, i requires 0 <= i < |s| => if p(s[i]) then f(s[i]) else s[i])
  }
}

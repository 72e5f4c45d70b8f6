/** Shared vocabulary of the model: document ids, optional values, HTTP replies,
    and the two table queries every route uses (first match, filter). */
module Common {

  /** A document id (a MongoDB ObjectId in the system); fresh ids come from a counter. */
  type Id = nat

  datatype Option<+T> = None | Some(value: T)

  /** What a route handler sends back.  `Fail` carries the HTTP status and the
      message; `Unhandled` is a handler whose promise rejects with no `catch`
      around the failing call, so the handler sends no reply. */
  datatype Reply<+T> = Ok(value: T) | Fail(code: int, message: string) | Unhandled

  /** Index of the first element satisfying `p`, as `findOne` returns the first
      document in natural (insertion) order. */
  function First<T>(s: seq<T>, p: T -> bool): (r: Option<nat>)
    ensures r.Some? ==> r.value < |s| && p(s[r.value])
    ensures r.Some? ==> forall j :: 0 <= j < r.value ==> !p(s[j])
    ensures r.None? <==> forall j :: 0 <= j < |s| ==> !p(s[j])
  {
    if |s| == 0 then None
    else if p(s[0]) then Some(0)
    else match First(s[1..], p)
      case None => None
      case Some(k) => Some(k + 1)
  }

  /** The elements satisfying `p`, in their original order, as `find` returns them. */
  function Filter<T(!new)>(s: seq<T>, p: T -> bool): (r: seq<T>)
    ensures |r| <= |s|
    ensures forall x :: x in r <==> x in s && p(x)
    ensures forall x :: multiset(r)[x] == if p(x) then multiset(s)[x] else 0
  {
    if |s| == 0 then []
    else
      assert s == [s[0]] + s[1..];
      if p(s[0]) then [s[0]] + Filter(s[1..], p)
      else Filter(s[1..], p)
  }

  /** The first match is determined by the contract alone: any index that
      matches and has no match before it is the one `First` returns. */
  lemma FirstIs<T>(s: seq<T>, p: T -> bool, k: nat)
    requires k < |s| && p(s[k])
    requires forall j :: 0 <= j < k ==> !p(s[j])
    ensures First(s, p) == Some(k)
  {
  }

  /** Appending an element that does not match leaves the first match where it was. */
  lemma FirstAppendMiss<T>(s: seq<T>, x: T, p: T -> bool)
    requires !p(x)
    ensures First(s + [x], p) == First(s, p)
  {
    var t := s + [x];
    match First(s, p)
    case Some(k) =>
      assert t[k] == s[k];
      FirstIs(t, p, k);
    case None =>
      assert forall j :: 0 <= j < |t| ==> !p(t[j]) by {
        forall j | 0 <= j < |t| ensures !p(t[j]) {
          if j < |s| { assert t[j] == s[j]; }
        }
      }
  }

  /** When nothing matched before, an appended element that matches is found at the end. */
  lemma FirstAppendHit<T>(s: seq<T>, x: T, p: T -> bool)
    requires p(x)
    requires forall j :: 0 <= j < |s| ==> !p(s[j])
    ensures First(s + [x], p) == Some(|s|)
  {
    var t := s + [x];
    assert forall j :: 0 <= j < |s| ==> t[j] == s[j];
    FirstIs(t, p, |s|);
  }

  /** A filter that rejects nothing returns its input unchanged. */
  lemma {:induction false} FilterKeepsAll<T(!new)>(s: seq<T>, p: T -> bool)
    requires forall x :: x in s ==> p(x)
    ensures Filter(s, p) == s
  {
    if |s| > 0 {
      assert s[0] in s;
      assert forall x :: x in s[1..] ==> x in s;
      FilterKeepsAll(s[1..], p);
      assert [s[0]] + s[1..] == s;
    }
  }

  /** Filters by two predicates that agree on every element give the same result. */
  lemma {:induction false} FilterAgree<T(!new)>(s: seq<T>, p: T -> bool, q: T -> bool)
    requires forall x :: x in s ==> p(x) == q(x)
    ensures Filter(s, p) == Filter(s, q)
  {
    if |s| > 0 {
      assert s[0] in s;
      assert forall x :: x in s[1..] ==> x in s;
      FilterAgree(s[1..], p, q);
    }
  }
}

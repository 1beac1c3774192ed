/** Page windows as the list endpoints compute them: the store skips
    `(page - 1) * limit` results of the ordered query and returns at most
    `limit` of the rest, and `totalPages` is `Math.ceil(total / limit)`. */
module Paging {
  import opened Common

  datatype PageError = NegativeSkip

  function Skip(page: int, limit: nat): int {
    (page - 1) * limit
  }

  /** `.skip((page - 1) * limit).limit(limit)`. A limit of 0 is no limit; a
      negative skip is refused by the store. */
  function Window<T>(s: seq<T>, page: int, limit: nat): (r: Result<seq<T>, PageError>)
    ensures r.Err? <==> Skip(page, limit) < 0
    ensures r.Ok? && limit > 0 ==> |r.value| <= limit
    ensures r.Ok? ==> forall i :: 0 <= i < |r.value| ==>
              Skip(page, limit) + i < |s| && r.value[i] == s[Skip(page, limit) + i]
    ensures r.Ok? && limit == 0 ==> r.value == s
  {
    var k := Skip(page, limit);
    if k < 0 then Err(NegativeSkip)
    else if k >= |s| then Ok([])
    else if limit == 0 || k + limit >= |s| then Ok(s[k..])
    else Ok(s[k..k + limit])
  }

  /** `Math.ceil(total / limit)`; a limit of 0 gives Infinity or NaN, which
      the JSON response renders as null (None here). */
  function TotalPages(total: nat, limit: nat): (r: Option<int>)
    ensures r.None? <==> limit == 0
    ensures r.Some? ==> (r.value - 1) * limit < total <= r.value * limit
  {
    if limit == 0 then None else Some(CeilDiv(total, limit))
  }

  /** The first p pages, one after the other. */
  function FirstPages<T>(s: seq<T>, limit: nat, p: nat): seq<T>
    requires limit > 0
    decreases p
  {
    if p == 0 then [] else FirstPages(s, limit, p - 1) + Window(s, p, limit).value
  }

  lemma {:induction false} FirstPagesArePrefix<T>(s: seq<T>, limit: nat, p: nat)
    requires limit > 0
    ensures p * limit <= |s| ==> FirstPages(s, limit, p) == s[..p * limit]
    ensures p * limit > |s| ==> FirstPages(s, limit, p) == s
    decreases p
  {
    if p > 0 {
      FirstPagesArePrefix(s, limit, p - 1);
      var k := (p - 1) * limit;
      assert k == p * limit - limit;
      if k >= |s| {
        assert Window(s, p, limit).value == [];
      } else if k + limit >= |s| {
        assert s[..k] + s[k..] == s;
      } else {
        assert s[..k] + s[k..k + limit] == s[..p * limit];
      }
    }
  }

  /** Pages 1 .. totalPages together hold every result once, in order, and
      the page after the last is empty. */
  lemma PagesCoverResults<T>(s: seq<T>, limit: nat)
    requires limit > 0
    ensures FirstPages(s, limit, TotalPages(|s|, limit).value) == s
    ensures Window(s, TotalPages(|s|, limit).value + 1, limit) == Ok([])
  {
    var p := TotalPages(|s|, limit).value;
    assert p >= 0 by {
      if p < 0 { MulMonotone(p, -1, limit); }
    }
    FirstPagesArePrefix(s, limit, p);
    assert s[..|s|] == s;
  }
}

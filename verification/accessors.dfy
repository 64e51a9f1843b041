/** The three single-value accessors of `request/request.go`. Each looks a
    raw string up in one view of the request and hands it to `Convert`.
    The request views are given already parsed: path parameters as the two
    parallel lists the router bound, the query as the decoded multi-map, and
    headers as a multi-map keyed by canonical header name. */
module Accessors {
  import opened Strings
  import opened Coerce

  // ------------------------------------------------------------------ path

  /** `i` is the first position whose parameter name is `key`. */
  predicate IsFirstMatch(names: seq<string>, key: string, i: int)
  {
    0 <= i < |names| && names[i] == key && key !in names[..i]
  }

  /** Indexing `vals` at the first matching name does not go out of bounds
      (in Go it would panic). */
  predicate Indexable(names: seq<string>, vals: seq<string>, key: string)
  {
    forall i :: 0 <= i < |names| && IsFirstMatch(names, key, i) ==> i < |vals|
  }

  /** `GetPathParams`: the value at the first position whose name is `key` is
      converted; later parameters of the same name are ignored; a key no
      parameter carries is an error that leaves the destination untouched. */
  method GetPathParams(names: seq<string>, vals: seq<string>, key: string,
                       kind: Kind, parseFloat: FloatParser)
    returns (o: Outcome)
    requires Indexable(names, vals, key)
    ensures key !in names ==> o == Refused(PathKeyNotFound)
    ensures forall i :: IsFirstMatch(names, key, i) ==> o == Convert(kind, vals[i], parseFloat)
  {
    var i := 0;
    while i < |names|
      invariant 0 <= i <= |names|
      invariant key !in names[..i]
    {
      if names[i] == key {
        assert IsFirstMatch(names, key, i);
        FirstMatchUnique(names, key, i);
        o := Convert(kind, vals[i], parseFloat);
        return;
      }
      assert names[..i + 1] == names[..i] + [names[i]];
      i := i + 1;
    }
    assert names[..i] == names;
    o := Refused(PathKeyNotFound);
  }

  lemma FirstMatchUnique(names: seq<string>, key: string, i: int)
    requires IsFirstMatch(names, key, i)
    ensures forall j :: IsFirstMatch(names, key, j) ==> j == i
  {
  }

  // ----------------------------------------------------------------- query

  /** `URL.Query()[key]`: every value given for `key`, none when it is absent. */
  function QueryValues(query: map<string, seq<string>>, key: string): (vals: seq<string>)
    ensures key in query ==> vals == query[key]
    ensures |vals| > 0 ==> key in query
  {
    if key in query then query[key] else []
  }

  /** `GetQueryParam`: no value for `key` skips the destination when optional
      and is an error otherwise; the values of a repeated key are joined with
      commas and the joined string is converted. */
  function GetQueryParam(query: map<string, seq<string>>, key: string, kind: Kind,
                         optional: bool, parseFloat: FloatParser): (o: Outcome)
    ensures o.Skipped? <==> optional && |QueryValues(query, key)| == 0
    ensures |QueryValues(query, key)| == 0 && !optional ==> o == Refused(KeyNotFound(key))
    ensures |QueryValues(query, key)| == 0 ==> o.Untouched()
    ensures |QueryValues(query, key)| == 1 ==>
              o == Convert(kind, QueryValues(query, key)[0], parseFloat)
  {
    var vals := QueryValues(query, key);
    if |vals| == 0 then
      if optional then Skipped else Refused(KeyNotFound(key))
    else
      Convert(kind, Join(vals, ','), parseFloat)
  }

  /** A key repeated with values `xs` converts exactly as the single
      comma-joined value `a,b,c` does: `k=a&k=b&k=c` behaves as `k=a,b,c`. */
  lemma QueryRepeatedIsJoined(q1: map<string, seq<string>>, q2: map<string, seq<string>>,
                              key: string, kind: Kind, optional: bool, parseFloat: FloatParser)
    requires |QueryValues(q1, key)| > 0
    requires QueryValues(q2, key) == [Join(QueryValues(q1, key), ',')]
    ensures GetQueryParam(q1, key, kind, optional, parseFloat) ==
            GetQueryParam(q2, key, kind, optional, parseFloat)
  {
  }

  /** Into a slice of strings, the values of a repeated key are each split on
      commas and the pieces concatenated in order; values without commas are
      stored as they are, one element per value. */
  lemma QuerySliceValues(query: map<string, seq<string>>, key: string,
                         optional: bool, parseFloat: FloatParser)
    requires |QueryValues(query, key)| > 0
    ensures GetQueryParam(query, key, SliceK(StringK), optional, parseFloat) ==
            Stored(ListV(SplitAll(QueryValues(query, key), ',')))
    ensures SepFree(QueryValues(query, key), ',') ==>
              GetQueryParam(query, key, SliceK(StringK), optional, parseFloat) ==
              Stored(ListV(QueryValues(query, key)))
  {
    var vals := QueryValues(query, key);
    SplitOfJoin(vals, ',');
    if SepFree(vals, ',') {
      SplitAllSepFree(vals, ',');
    }
  }

  // ---------------------------------------------------------------- header

  /** `Header.Get`: the first value stored under `key`, or `""` when there is
      none. `key` is taken to be in canonical form already. */
  function HeaderGet(header: map<string, seq<string>>, key: string): (v: string)
    ensures v != "" ==> key in header && |header[key]| > 0 && v == header[key][0]
    ensures key in header && |header[key]| > 0 ==> v == header[key][0]
  {
    if key in header && |header[key]| > 0 then header[key][0] else ""
  }

  /** `GetHeaderParams`: an empty lookup result counts as absent, whether the
      header is missing or present with an empty first value. */
  function GetHeaderParams(header: map<string, seq<string>>, key: string, kind: Kind,
                           optional: bool, parseFloat: FloatParser): (o: Outcome)
    ensures o.Skipped? <==> optional && HeaderGet(header, key) == ""
    ensures HeaderGet(header, key) == "" && !optional ==> o == Refused(KeyNotFound(key))
    ensures HeaderGet(header, key) == "" ==> o.Untouched()
    ensures key in header && |header[key]| > 0 && header[key][0] != "" ==>
              o == Convert(kind, header[key][0], parseFloat)
  {
    var v := HeaderGet(header, key);
    if v == "" then
      if optional then Skipped else Refused(KeyNotFound(key))
    else
      Convert(kind, v, parseFloat)
  }

  /** A header whose first value is empty behaves exactly as a missing one. */
  lemma HeaderEmptyIsMissing(header: map<string, seq<string>>, key: string, rest: seq<string>,
                             kind: Kind, optional: bool, parseFloat: FloatParser)
    ensures GetHeaderParams(header[key := [""] + rest], key, kind, optional, parseFloat) ==
            GetHeaderParams(header - {key}, key, kind, optional, parseFloat)
  {
  }
}

/** The request path `search_beatmaps` (main.py) sends to the catalog: each
    filter contributes a `key=value` parameter under its own rule, in a fixed
    order, joined with '&' after a '?' that is present only when some
    parameter is. Nothing is URL-encoded. */
module Search {
  import opened Outcome
  import opened Strings

  const BasePath: string := "/api/v2/search"

  /** The limit the path leaves out (the server's own default). */
  const OmittedLimit: int := 100

  /** The arguments of one search; `None` is Python's `None`. */
  datatype Filter = Filter(
    query: Option<string>,
    limit: int,
    offset: int,
    status: Option<seq<int>>,
    mode: Option<seq<int>>,
    sort: Option<seq<string>>)

  /** What `search_beatmaps` uses for arguments it is not given. */
  const CallDefaults: Filter := Filter(None, 10000, 0, None, None, None)

  /** The six parameters the search can send. */
  datatype Key = Query | Limit | Offset | Status | Mode | Sort

  datatype Param = Param(key: Key, value: string)

  /** The parameter keys, in the order the path lists them. */
  const ParamOrder: seq<Key> := [Query, Limit, Offset, Status, Mode, Sort]

  /** The name a key has in the path. */
  function KeyName(k: Key): string {
    match k
    case Query => "query"
    case Limit => "limit"
    case Offset => "offset"
    case Status => "status"
    case Mode => "mode"
    case Sort => "sort"
  }

  /** The position of a key in `ParamOrder`. */
  function Rank(k: Key): (r: nat)
    ensures r < |ParamOrder| && ParamOrder[r] == k
  {
    match k
    case Query => 0
    case Limit => 1
    case Offset => 2
    case Status => 3
    case Mode => 4
    case Sort => 5
  }

  /** Python truthiness of an optional string or list: present and non-empty. */
  predicate Given<T>(o: Option<seq<T>>) {
    o.Some? && |o.value| > 0
  }

  /** The value of the first parameter with the given key. */
  function Lookup(ps: seq<Param>, key: Key): Option<string>
    decreases |ps|
  {
    if |ps| == 0 then None
    else if ps[0].key == key then Some(ps[0].value)
    else Lookup(ps[1..], key)
  }

  /** `p` in front of `rest` when `cond` holds, otherwise just `rest`. */
  function AddIf(cond: bool, p: Param, rest: seq<Param>): seq<Param> {
    if cond then [p] + rest else rest
  }

  /** Keys strictly increase in rank along the list. */
  predicate Ordered(ps: seq<Param>) {
    forall i, j :: 0 <= i < j < |ps| ==> Rank(ps[i].key) < Rank(ps[j].key)
  }

  /** Every key ranks above `r`. */
  predicate RanksAbove(ps: seq<Param>, r: int) {
    forall i :: 0 <= i < |ps| ==> r < Rank(ps[i].key)
  }

  lemma {:induction false} LookupAbsent(ps: seq<Param>, key: Key)
    requires RanksAbove(ps, Rank(key))
    ensures Lookup(ps, key) == None
    decreases |ps|
  {
    if |ps| > 0 {
      LookupAbsent(ps[1..], key);
    }
  }

  /** A parameter together with whether its inclusion rule lets it through. */
  datatype Candidate = Candidate(admitted: bool, param: Param)

  /** The candidates that pass, in their order. */
  function Keep(cs: seq<Candidate>): seq<Param>
    decreases |cs|
  {
    if |cs| == 0 then [] else AddIf(cs[0].admitted, cs[0].param, Keep(cs[1..]))
  }

  predicate CandidatesOrdered(cs: seq<Candidate>) {
    forall i, j :: 0 <= i < j < |cs| ==> Rank(cs[i].param.key) < Rank(cs[j].param.key)
  }

  lemma {:induction false} KeepOrdered(cs: seq<Candidate>, r: int)
    requires CandidatesOrdered(cs)
    requires forall i :: 0 <= i < |cs| ==> r < Rank(cs[i].param.key)
    ensures Ordered(Keep(cs)) && RanksAbove(Keep(cs), r)
    decreases |cs|
  {
    if |cs| > 0 {
      KeepOrdered(cs[1..], Rank(cs[0].param.key));
      var rest := Keep(cs[1..]);
      if cs[0].admitted {
        var ps := [cs[0].param] + rest;
        assert forall i :: 0 < i < |ps| ==> ps[i] == rest[i - 1];
      }
    }
  }

  /** Each candidate is found exactly when it passed its rule. */
  lemma {:induction false} KeepLookup(cs: seq<Candidate>, n: nat)
    requires CandidatesOrdered(cs)
    requires n < |cs|
    ensures Lookup(Keep(cs), cs[n].param.key) == (if cs[n].admitted then Some(cs[n].param.value) else None)
    decreases n
  {
    var rest := Keep(cs[1..]);
    var key := cs[n].param.key;
    if n == 0 {
      KeepOrdered(cs[1..], Rank(cs[0].param.key));
      LookupAbsent(rest, key);
    } else {
      KeepLookup(cs[1..], n - 1);
      assert Rank(cs[0].param.key) < Rank(key);
      if cs[0].admitted {
        assert ([cs[0].param] + rest)[1..] == rest;
      }
    }
  }

  /** The six parameters with the rule that admits each
      (main.py, lines 56-67). */
  function Candidates(f: Filter): seq<Candidate> {
    [ Candidate(Given(f.query), Param(Query, if f.query.Some? then f.query.value else "")),
      Candidate(f.limit != OmittedLimit, Param(Limit, IntToString(f.limit))),
      Candidate(f.offset > 0, Param(Offset, IntToString(f.offset))),
      Candidate(Given(f.status), Param(Status, if f.status.Some? then IntsToText(f.status.value) else "")),
      Candidate(Given(f.mode), Param(Mode, if f.mode.Some? then IntsToText(f.mode.value) else "")),
      Candidate(Given(f.sort), Param(Sort, if f.sort.Some? then Join(f.sort.value, ',') else "")) ]
  }

  /** The `params` list `search_beatmaps` assembles: one entry per filter
      that passes its inclusion rule, in the fixed order. */
  function SearchParams(f: Filter): (ps: seq<Param>)
    ensures Ordered(ps)
    ensures Lookup(ps, Query) == (if Given(f.query) then f.query else None)
    ensures Lookup(ps, Limit) == (if f.limit != OmittedLimit then Some(IntToString(f.limit)) else None)
    ensures Lookup(ps, Offset) == (if f.offset > 0 then Some(IntToString(f.offset)) else None)
    ensures Lookup(ps, Status) == (if Given(f.status) then Some(IntsToText(f.status.value)) else None)
    ensures Lookup(ps, Mode) == (if Given(f.mode) then Some(IntsToText(f.mode.value)) else None)
    ensures Lookup(ps, Sort) == (if Given(f.sort) then Some(Join(f.sort.value, ',')) else None)
  {
    var cs := Candidates(f);
    KeepOrdered(cs, -1);
    KeepLookup(cs, 0);
    KeepLookup(cs, 1);
    KeepLookup(cs, 2);
    KeepLookup(cs, 3);
    KeepLookup(cs, 4);
    KeepLookup(cs, 5);
    Keep(cs)
  }

  function Render(p: Param): string {
    KeyName(p.key) + "=" + p.value
  }

  /** The `key=value` pieces of a parameter list. */
  function Pieces(ps: seq<Param>): seq<string> {
    seq(|ps|, i requires 0 <= i < |ps| => Render(ps[i]))
  }

  /** The path for an already assembled parameter list: the base path alone
      when there is nothing to send, otherwise the base path, '?' and the
      pieces. */
  function PathOf(ps: seq<Param>): (path: string)
    ensures |BasePath| <= |path| && path[..|BasePath|] == BasePath
    ensures path == BasePath <==> ps == []
    ensures ps != [] ==> path[|BasePath|] == '?'
  {
    if ps == [] then BasePath
    else
      var path := BasePath + "?" + Join(Pieces(ps), '&');
      assert path[..|BasePath|] == BasePath;
      path
  }

  /** True when the filter has something for the path to carry. */
  predicate AnyGiven(f: Filter) {
    Given(f.query) || f.limit != OmittedLimit || f.offset > 0
    || Given(f.status) || Given(f.mode) || Given(f.sort)
  }

  /** The request path of `search_beatmaps`: the bare base path exactly when
      no filter passes its rule. */
  function SearchPath(f: Filter): (path: string)
    ensures |BasePath| <= |path| && path[..|BasePath|] == BasePath
    ensures path == BasePath <==> !AnyGiven(f)
  {
    NoParamsIffNoneGiven(f);
    PathOf(SearchParams(f))
  }

  lemma NoParamsIffNoneGiven(f: Filter)
    ensures SearchParams(f) == [] <==> !AnyGiven(f)
  {
    var ps := SearchParams(f);
    if ps != [] {
      match ps[0].key
      case Query =>
      case Limit =>
      case Offset =>
      case Status =>
      case Mode =>
      case Sort =>
    }
  }

  // ---------------------------------------------------------------------
  // Reading a path back: the partner of `SearchPath`.

  function ParseKey(name: string): Option<Key> {
    if name == "query" then Some(Query)
    else if name == "limit" then Some(Limit)
    else if name == "offset" then Some(Offset)
    else if name == "status" then Some(Status)
    else if name == "mode" then Some(Mode)
    else if name == "sort" then Some(Sort)
    else None
  }

  function ParsePiece(piece: string): Option<Param> {
    var parts := Split(piece, '=');
    if |parts| < 2 then None
    else
      var key :- ParseKey(parts[0]);
      Some(Param(key, Join(parts[1..], '=')))
  }

  function ParsePieces(pieces: seq<string>): Option<seq<Param>>
    decreases |pieces|
  {
    if |pieces| == 0 then Some([])
    else
      var p :- ParsePiece(pieces[0]);
      var ps :- ParsePieces(pieces[1..]);
      Some([p] + ps)
  }

  /** The parameters a search path carries, or `None` if it is not one. */
  function ParsePath(path: string): Option<seq<Param>> {
    var prefix := BasePath + "?";
    if path == BasePath then Some([])
    else if |prefix| <= |path| && path[..|prefix|] == prefix then
      ParsePieces(Split(path[|prefix|..], '&'))
    else None
  }

  /** The filter with every value the path cannot show replaced by the one
      it stands for: an empty or absent query or list is absent, and an
      offset that is not positive is 0. */
  function Canonical(f: Filter): Filter {
    Filter(
      if Given(f.query) then f.query else None,
      f.limit,
      if f.offset > 0 then f.offset else 0,
      if Given(f.status) then f.status else None,
      if Given(f.mode) then f.mode else None,
      if Given(f.sort) then f.sort else None)
  }

  function DecodeNumber(v: Option<string>, absent: int): Option<int> {
    match v
    case None => Some(absent)
    case Some(text) => ParseDecimal(text)
  }

  function DecodeInts(v: Option<string>): Option<Option<seq<int>>> {
    match v
    case None => Some(None)
    case Some(text) =>
      var xs :- ParseInts(text);
      Some(Some(xs))
  }

  /** The filter a parameter list describes. */
  function DecodeParams(ps: seq<Param>): Option<Filter> {
    var limit :- DecodeNumber(Lookup(ps, Limit), OmittedLimit);
    var offset :- DecodeNumber(Lookup(ps, Offset), 0);
    var status :- DecodeInts(Lookup(ps, Status));
    var mode :- DecodeInts(Lookup(ps, Mode));
    var sort := match Lookup(ps, Sort)
      case None => None
      case Some(text) => Some(Split(text, ','));
    Some(Filter(Lookup(ps, Query), limit, offset, status, mode, sort))
  }

  /** A filter whose free text cannot be confused with the path's own
      separators: no '&' in the query, no '&' or ',' in a sort key. */
  predicate Separable(f: Filter) {
    && (f.query.Some? ==> '&' !in f.query.value)
    && (f.sort.Some? ==> forall i :: 0 <= i < |f.sort.value| ==> '&' !in f.sort.value[i] && ',' !in f.sort.value[i])
  }

  lemma ParsePieceRender(p: Param)
    ensures ParsePiece(Render(p)) == Some(p)
  {
    var name := KeyName(p.key);
    assert '=' !in name;
    assert Render(p) == name + ['='] + p.value;
    SplitAtFirst(name, p.value, '=');
    JoinSplit(p.value, '=');
    var parts := Split(Render(p), '=');
    assert parts[1..] == Split(p.value, '=');
  }

  lemma {:induction false} ParsePiecesRender(ps: seq<Param>)
    ensures ParsePieces(Pieces(ps)) == Some(ps)
    decreases |ps|
  {
    var pieces := Pieces(ps);
    if |ps| > 0 {
      ParsePieceRender(ps[0]);
      ParsePiecesRender(ps[1..]);
      assert pieces[1..] == Pieces(ps[1..]);
      assert [ps[0]] + ps[1..] == ps;
    }
  }

  /** Any parameter list whose values hold no '&' can be read back from its
      path. */
  lemma PathRoundTrip(ps: seq<Param>)
    requires forall i :: 0 <= i < |ps| ==> '&' !in ps[i].value
    ensures ParsePath(PathOf(ps)) == Some(ps)
  {
    if ps != [] {
      PiecesAvoidAmpersand(ps);
      QueryAfterPrefix(ps);
      SplitJoin(Pieces(ps), '&');
      ParsePiecesRender(ps);
    }
  }

  /** A non-empty list's path is the base path, '?', then the joined pieces. */
  lemma QueryAfterPrefix(ps: seq<Param>)
    requires ps != []
    ensures var prefix := BasePath + "?";
      var path := PathOf(ps);
      && path != BasePath
      && |prefix| <= |path|
      && path[..|prefix|] == prefix
      && path[|prefix|..] == Join(Pieces(ps), '&')
  {
  }

  lemma PiecesAvoidAmpersand(ps: seq<Param>)
    requires forall i :: 0 <= i < |ps| ==> '&' !in ps[i].value
    ensures forall i :: 0 <= i < |Pieces(ps)| ==> '&' !in Pieces(ps)[i]
  {
    forall i | 0 <= i < |ps|
      ensures '&' !in Pieces(ps)[i]
    {
      var name := KeyName(ps[i].key);
      assert '&' !in name;
      assert Pieces(ps)[i] == name + "=" + ps[i].value;
    }
  }

  lemma NoAmpersandInInts(xs: seq<int>)
    ensures '&' !in IntsToText(xs)
  {
    var texts := seq(|xs|, i requires 0 <= i < |xs| => IntToString(xs[i]));
    forall i | 0 <= i < |texts|
      ensures '&' !in texts[i]
    {
      var t := IntToString(xs[i]);
      assert forall k :: 0 <= k < |t| ==> t[k] != '&';
    }
    JoinAvoids(texts, ',', '&');
  }

  lemma {:induction false} JoinAvoids(parts: seq<string>, sep: char, c: char)
    requires sep != c
    requires forall i :: 0 <= i < |parts| ==> c !in parts[i]
    ensures c !in Join(parts, sep)
    decreases |parts|
  {
    if |parts| > 1 {
      JoinAvoids(parts[1..], sep, c);
    }
  }

  lemma ParamsAreSeparable(f: Filter)
    requires Separable(f)
    ensures var ps := SearchParams(f);
      forall i :: 0 <= i < |ps| ==> '&' !in ps[i].value
  {
    var ps := SearchParams(f);
    forall i | 0 <= i < |ps|
      ensures '&' !in ps[i].value
    {
      LookupFindsUniqueKey(ps, i);
      match ps[i].key
      case Query =>
      case Limit => IntToStringAvoids(f.limit);
      case Offset => IntToStringAvoids(f.offset);
      case Status => NoAmpersandInInts(f.status.value);
      case Mode => NoAmpersandInInts(f.mode.value);
      case Sort => JoinAvoids(f.sort.value, ',', '&');
    }
  }

  lemma IntToStringAvoids(n: int)
    ensures '&' !in IntToString(n)
  {
  }

  /** In a list whose keys strictly increase in rank, every parameter is the
      one its key looks up. */
  lemma {:induction false} LookupFindsUniqueKey(ps: seq<Param>, i: nat)
    requires i < |ps|
    requires Ordered(ps)
    ensures Lookup(ps, ps[i].key) == Some(ps[i].value)
    decreases i
  {
    if i > 0 {
      assert Rank(ps[0].key) < Rank(ps[i].key);
      LookupFindsUniqueKey(ps[1..], i - 1);
    }
  }

  /** The search path can be read back into the parameter list it was built
      from, provided the free text holds no separator. */
  lemma SearchPathRoundTrip(f: Filter)
    requires Separable(f)
    ensures ParsePath(SearchPath(f)) == Some(SearchParams(f))
  {
    ParamsAreSeparable(f);
    PathRoundTrip(SearchParams(f));
  }

  /** The parameter list describes exactly the canonical filter. */
  lemma DecodeSearchParams(f: Filter)
    requires Separable(f)
    ensures DecodeParams(SearchParams(f)) == Some(Canonical(f))
  {
    var ps := SearchParams(f);
    if f.limit != OmittedLimit { IntToStringRoundTrip(f.limit); }
    if f.offset > 0 { IntToStringRoundTrip(f.offset); }
    if Given(f.status) { IntsRoundTrip(f.status.value); }
    if Given(f.mode) { IntsRoundTrip(f.mode.value); }
    if Given(f.sort) { SplitJoin(f.sort.value, ','); }
  }

  /** If the first key of `ps` is looked up the same in `qs`, an ordered
      `qs` starts with the same parameter. */
  lemma HeadsAgree(ps: seq<Param>, qs: seq<Param>)
    requires Ordered(ps) && Ordered(qs)
    requires forall k :: Lookup(ps, k) == Lookup(qs, k)
    requires |ps| > 0
    ensures |qs| > 0 && qs[0] == ps[0]
  {
    var p := ps[0];
    assert Lookup(qs, p.key) == Some(p.value);
    var q := qs[0];
    if Rank(p.key) < Rank(q.key) {
      LookupAbsent(qs, p.key);
    }
    assert Lookup(ps, q.key) == Some(q.value);
    if Rank(q.key) < Rank(p.key) {
      LookupAbsent(ps, q.key);
    }
  }

  lemma TailLookups(ps: seq<Param>, qs: seq<Param>)
    requires Ordered(ps) && Ordered(qs)
    requires forall k :: Lookup(ps, k) == Lookup(qs, k)
    requires |ps| > 0 && |qs| > 0 && ps[0] == qs[0]
    ensures forall k :: Lookup(ps[1..], k) == Lookup(qs[1..], k)
  {
    LookupAbsent(ps[1..], ps[0].key);
    LookupAbsent(qs[1..], qs[0].key);
  }

  /** An ordered parameter list is determined by what each key looks up, so
      the lookups in the contract of `SearchParams` pin the list down. */
  lemma {:induction false} LookupDetermines(ps: seq<Param>, qs: seq<Param>)
    requires Ordered(ps) && Ordered(qs)
    requires forall k :: Lookup(ps, k) == Lookup(qs, k)
    ensures ps == qs
    decreases |ps|
  {
    if |ps| > 0 {
      HeadsAgree(ps, qs);
      TailLookups(ps, qs);
      LookupDetermines(ps[1..], qs[1..]);
      assert ps == [ps[0]] + ps[1..];
      assert qs == [qs[0]] + qs[1..];
    } else if |qs| > 0 {
      HeadsAgree(qs, ps);
      assert false;
    }
  }

  /** The parameters depend on nothing but the canonical filter. */
  lemma ParamsOfCanonical(f: Filter)
    ensures SearchParams(Canonical(f)) == SearchParams(f)
  {
    var ps := SearchParams(Canonical(f));
    var qs := SearchParams(f);
    forall k
      ensures Lookup(ps, k) == Lookup(qs, k)
    {
      match k
      case Query =>
      case Limit =>
      case Offset =>
      case Status =>
      case Mode =>
      case Sort =>
    }
    LookupDetermines(ps, qs);
  }

  /** Two separable filters send the same request path exactly when they
      agree once the values the path cannot show are normalised. */
  lemma SamePathIffSameCanonical(f: Filter, g: Filter)
    requires Separable(f) && Separable(g)
    ensures SearchPath(f) == SearchPath(g) <==> Canonical(f) == Canonical(g)
  {
    if SearchPath(f) == SearchPath(g) {
      SearchPathRoundTrip(f);
      SearchPathRoundTrip(g);
      DecodeSearchParams(f);
      DecodeSearchParams(g);
    }
    if Canonical(f) == Canonical(g) {
      ParamsOfCanonical(f);
      ParamsOfCanonical(g);
    }
  }

  /** The path of a list holding one or two parameters. */
  lemma PathOfOne(p: Param)
    ensures PathOf([p]) == BasePath + "?" + Render(p)
  {
  }

  lemma PathOfTwo(p: Param, q: Param)
    ensures PathOf([p, q]) == BasePath + "?" + Render(p) + "&" + Render(q)
  {
    assert Pieces([p, q]) == [Render(p), Render(q)];
    assert Join([Render(p), Render(q)], '&') == Render(p) + "&" + Render(q) by {
      assert [Render(p), Render(q)][1..] == [Render(q)];
    }
  }

  lemma CollidingParams()
    ensures SearchParams(Filter(Some("a&limit=5"), 100, 0, None, None, None)) == [Param(Query, "a&limit=5")]
    ensures SearchParams(Filter(Some("a"), 5, 0, None, None, None)) == [Param(Query, "a"), Param(Limit, "5")]
  {
  }

  /** Without separability the path is ambiguous: a query holding '&' reads
      as a further parameter, so two different searches send one path. */
  lemma RawQueryCollision()
    ensures var f := Filter(Some("a&limit=5"), 100, 0, None, None, None);
      var g := Filter(Some("a"), 5, 0, None, None, None);
      Canonical(f) != Canonical(g) && SearchPath(f) == SearchPath(g)
  {
    CollidingParams();
    CollidingPieces();
    OnePieceAsTwo(Param(Query, "a&limit=5"), Param(Query, "a"), Param(Limit, "5"));
  }

  lemma CollidingPieces()
    ensures Render(Param(Query, "a&limit=5")) == Render(Param(Query, "a")) + "&" + Render(Param(Limit, "5"))
  {
  }

  /** A piece that reads as two pieces gives the same path as those two. */
  lemma OnePieceAsTwo(p: Param, q: Param, l: Param)
    requires Render(p) == Render(q) + "&" + Render(l)
    ensures PathOf([p]) == PathOf([q, l])
  {
    PathOfOne(p);
    PathOfTwo(q, l);
  }

  lemma DefaultParams()
    ensures SearchParams(CallDefaults) == [Param(Limit, "10000")]
  {
    assert NatToString(1) == "1";
    assert NatToString(10) == "10";
    assert NatToString(100) == "100";
    assert NatToString(1000) == "1000";
    assert IntToString(10000) == "10000";
    var ps := [Param(Limit, "10000")];
    forall k
      ensures Lookup(SearchParams(CallDefaults), k) == Lookup(ps, k)
    {
      match k
      case Query =>
      case Limit =>
      case Offset =>
      case Status =>
      case Mode =>
      case Sort =>
    }
    LookupDetermines(SearchParams(CallDefaults), ps);
  }

  /** Called with no arguments, the search asks for 10000 results: the
      signature's default is not the limit the path omits. */
  lemma DefaultCallPath()
    ensures SearchPath(CallDefaults) == "/api/v2/search?limit=10000"
  {
  }
}

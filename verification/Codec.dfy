// The public-value codec of contract 2 (templates/_shared/ax_space.py).
module Codec {
  import opened Wrappers
  import opened Space
  import opened SpaceOrder
  import opened SpaceVector

  // Encoded names: "root", or "p<i>" for the i-th parameter.
  datatype Key = Root | Column(i: nat)

  // Encoded values: the root's "all", the categorical token "c<i>", or a raw scalar.
  datatype Code = All | Token(i: nat) | Raw(v: Value)

  type Encoded = map<Key, Code>

  // How one parameter is presented: tokens for raw choices, a list of values, or bounds.
  datatype Domain = Tokens(raw: seq<Value>) | Listed(values: seq<Value>) | Bounded

  const MAX_PARENT_VALUES := 256

  predicate Controls(params: seq<Param>, name: string) {
    exists p, c :: p in params && c in p.conditions && c.controller == name
  }

  predicate HasParent(params: seq<Param>) {
    exists p :: p in params && p.conditions != []
  }

  // At most one controller, at one value.
  predicate OneParent(p: Param) {
    |p.conditions| <= 1 && forall c :: c in p.conditions ==> |c.allowed| == 1
  }

  function Whole(lo: int, hi: int): seq<Value>
    requires lo <= hi
  {
    seq(hi - lo + 1, i => Int(lo + i))
  }

  // None where build_codec raises: a controller without a small finite domain.
  function DomainOf(k: Kind, controls: bool): Option<Domain>
    requires Sound(k)
  {
    match k
    case Categorical(choices) => Some(Tokens(choices))
    case Boolean => Some(Listed([Bool(false), Bool(true)]))
    case Integer(lo, hi) =>
      if !controls then Some(Bounded)
      else if lo == hi then Some(Listed([Int(lo)]))
      else if hi - lo + 1 <= MAX_PARENT_VALUES then Some(Listed(Whole(lo, hi)))
      else None
    case Continuous(low, high) =>
      if !controls then Some(Bounded) else if low == high then Some(Listed([Float(low)])) else None
  }

  // What each kind of parameter presents: its choices, both booleans, the whole numbers
  // between its bounds if it controls others and has at most 256 of them, its only
  // number, or else its bounds, which a controller cannot have.
  lemma DomainMeans(k: Kind, controls: bool)
    requires Sound(k)
    ensures match k
            case Categorical(choices) => DomainOf(k, controls) == Some(Tokens(choices))
            case Boolean => DomainOf(k, controls) == Some(Listed([Bool(false), Bool(true)]))
            case Integer(lo, hi) =>
              && (!controls ==> DomainOf(k, controls) == Some(Bounded))
              && (controls ==> (DomainOf(k, controls).Some? <==> hi - lo < 256))
              && (controls && hi - lo < 256 ==>
                    var domain := DomainOf(k, controls).value;
                    domain.Listed? && |domain.values| == hi - lo + 1
                    && forall i :: 0 <= i <= hi - lo ==> domain.values[i] == Int(lo + i))
            case Continuous(low, high) =>
              && (!controls ==> DomainOf(k, controls) == Some(Bounded))
              && (controls ==> DomainOf(k, controls) == if low == high then Some(Listed([Float(low)])) else None)
  {
  }

  // What a parameter space must be for the codec to be built.
  predicate Tree(params: seq<Param>) {
    && SpaceOK(params) && Ordered(params).Walked?
    && (forall p :: p in params ==> OneParent(p) && DomainOf(p.kind, Controls(params, p.name)).Some?)
    && (forall p :: p in params ==> LiveBranch(params, p))
  }

  // The value a parameter depends on is one its controller presents.
  predicate LiveBranch(params: seq<Param>, p: Param)
    requires SpaceOK(params) && p in params && OneParent(p)
    requires forall q :: q in params ==> DomainOf(q.kind, Controls(params, q.name)).Some?
  {
    p.conditions == [] ||
    var controller := ControllerOf(params, p);
    assert p.conditions[0] in p.conditions;
    EncodeValue(controller.kind, DomainOf(controller.kind, Controls(params, controller.name)).value,
                p.conditions[0].allowed[0]).Some?
  }

  function ControllerOf(params: seq<Param>, p: Param): (r: Param)
    requires SpaceOK(params) && p in params && p.conditions != []
    ensures r in params && r.name == p.conditions[0].controller
  {
    assert p.conditions[0] in p.conditions;
    Lookup(params, p.conditions[0].controller)
  }

  function ColumnDomain(params: seq<Param>, i: nat): Domain
    requires Tree(params) && i < |params|
  {
    assert params[i] in params;
    DomainOf(params[i].kind, Controls(params, params[i].name)).value
  }

  datatype CodecError = ManyParents(name: string) | UnboundedParent(name: string) | DeadBranch(name: string)

  // build_codec, as far as it decides columns and domains.
  method BuildDomains(params: seq<Param>) returns (domains: seq<Domain>, error: Option<CodecError>)
    requires SpaceOK(params) && Ordered(params).Walked?
    ensures error.None? <==> Tree(params)
    ensures error.None? ==> |domains| == |params| && forall i :: 0 <= i < |params| ==> domains[i] == ColumnDomain(params, i)
  {
    domains := [];
    error := CheckParents(params);
    if error.Some? { return; }
    domains, error := PresentDomains(params);
    if error.Some? { return; }
    assert Presented(params);
    hide SpaceOK, DomainOf, Ordered, Controls, OneParent;
    error := CheckBranches(params, domains);
    TreeIs(params);
    ColumnsAre(params, domains);
  }

  lemma TreeIs(params: seq<Param>)
    requires SpaceOK(params) && Ordered(params).Walked? && Presented(params)
    ensures Tree(params) <==> forall p :: p in params ==> LiveBranch(params, p)
  {
    hide SpaceOK, Ordered, LiveBranch, DomainOf, OneParent, Controls;
  }

  lemma ColumnsAre(params: seq<Param>, domains: seq<Domain>)
    requires SpaceOK(params) && |domains| == |params| && forall k :: 0 <= k < |params| ==>
               params[k] in params && DomainOf(params[k].kind, Controls(params, params[k].name)) == Some(domains[k])
    ensures Tree(params) ==> forall i :: 0 <= i < |params| ==> domains[i] == ColumnDomain(params, i)
  {
    hide Tree, DomainOf, SpaceOK, Controls;
  }

  // Does every dependent need a value that its controller presents?
  method CheckBranches(params: seq<Param>, domains: seq<Domain>) returns (error: Option<CodecError>)
    requires SpaceOK(params) && Presented(params)
    requires |domains| == |params| && forall k :: 0 <= k < |params| ==>
               params[k] in params && DomainOf(params[k].kind, Controls(params, params[k].name)) == Some(domains[k])
    ensures error.None? <==> forall p :: p in params ==> LiveBranch(params, p)
  {
    hide SpaceOK, DomainOf, Controls, LiveBranch, OneParent;
    for i := 0 to |params|
      invariant forall k :: 0 <= k < i ==> params[k] in params && LiveBranch(params, params[k])
    {
      assert params[i] in params;
      if params[i].conditions != [] {
        var live := CheckBranch(params, domains, params[i]);
        if !live { return Some(DeadBranch(params[i].name)); }
      } else {
        NoBranch(params, params[i]);
      }
    }
    error := None;
  }

  method CheckParents(params: seq<Param>) returns (error: Option<CodecError>)
    ensures error.None? <==> forall p :: p in params ==> OneParent(p)
  {
    for i := 0 to |params|
      invariant forall k :: 0 <= k < i ==> OneParent(params[k])
    {
      if !OneParent(params[i]) { return Some(ManyParents(params[i].name)); }
    }
    error := None;
  }

  method PresentDomains(params: seq<Param>) returns (domains: seq<Domain>, error: Option<CodecError>)
    requires SpaceOK(params)
    ensures error.None? <==> forall p :: p in params ==> DomainOf(p.kind, Controls(params, p.name)).Some?
    ensures error.None? ==> |domains| == |params| && forall k :: 0 <= k < |params| ==>
              params[k] in params && DomainOf(params[k].kind, Controls(params, params[k].name)) == Some(domains[k])
  {
    domains := [];
    hide SpaceOK, Controls;
    for i := 0 to |params|
      invariant |domains| == i
      invariant forall k :: 0 <= k < i ==> params[k] in params && Sound(params[k].kind)
                                           && DomainOf(params[k].kind, Controls(params, params[k].name)) == Some(domains[k])
    {
      SoundAt(params, i);
      hide DomainOf, Sound;
      var domain := DomainOf(params[i].kind, Controls(params, params[i].name));
      assert params[i] in params;
      if domain.None? { return [], Some(UnboundedParent(params[i].name)); }
      domains := domains + [domain.value];
    }
    error := None;
  }

  // Every parameter has at most one controller and a domain.
  predicate Presented(params: seq<Param>)
    requires SpaceOK(params)
  {
    forall p :: p in params ==> OneParent(p) && DomainOf(p.kind, Controls(params, p.name)).Some?
  }

  lemma NoBranch(params: seq<Param>, p: Param)
    requires SpaceOK(params) && Presented(params) && p in params && p.conditions == []
    ensures LiveBranch(params, p)
  {
    hide SpaceOK;
  }

  // Is the value a dependent needs one that its controller presents?
  method CheckBranch(params: seq<Param>, domains: seq<Domain>, p: Param) returns (live: bool)
    requires SpaceOK(params) && Presented(params) && p in params && p.conditions != []
    requires |domains| == |params| && forall k :: 0 <= k < |params| ==>
               params[k] in params && DomainOf(params[k].kind, Controls(params, params[k].name)) == Some(domains[k])
    ensures live <==> LiveBranch(params, p)
  {
    assert p.conditions[0] in p.conditions;
    hide DomainOf, SpaceOK;
    var controller := ControllerOf(params, p);
    var i :| 0 <= i < |params| && params[i] == controller;
    live := EncodeValue(controller.kind, domains[i], p.conditions[0].allowed[0]).Some?;
  }

  lemma SoundAt(params: seq<Param>, i: nat)
    requires SpaceOK(params) && i < |params|
    ensures Sound(params[i].kind)
  {
    assert params[i] in params;
  }

  function Branching(lo: int, hi: int): seq<Param> {
    [Param("a", Integer(lo, hi), []), Param("b", Boolean, [Condition("a", [Int(1)])])]
  }

  // Tightening the bounds of a controller can take away the value a dependent
  // needs: the space is well formed, and its codec is not built.
  lemma TighteningCanKillABranch()
    ensures Tree(Branching(0, 5))
    ensures SpaceOK(Branching(3, 5)) && Ordered(Branching(3, 5)).Walked? && !Tree(Branching(3, 5))
  {
    hide *;
    BranchingIsTree(0, 5);
    BranchingIsTree(3, 5);
  }

  lemma BranchingIsTree(lo: int, hi: int)
    requires lo < hi <= lo + 100
    ensures SpaceOK(Branching(lo, hi)) && Ordered(Branching(lo, hi)).Walked?
    ensures Tree(Branching(lo, hi)) <==> lo <= 1 <= hi
  {
    BranchingIsOK(lo, hi);
    BranchIsLive(lo, hi);
    var params := Branching(lo, hi);
    hide SpaceOK, Ordered, LiveBranch, DomainOf, Controls, OneParent, Tree;
    TreeIs(params);
    assert params[1] in params;
  }

  lemma BranchingIsOK(lo: int, hi: int)
    requires lo <= hi
    ensures SpaceOK(Branching(lo, hi)) && Ordered(Branching(lo, hi)).Walked?
  {
    var params := Branching(lo, hi);
    assert params[..1] == [params[0]];
    DeclaredInOrder(params);
    hide Ordered;
  }

  lemma BranchIsLive(lo: int, hi: int)
    requires lo < hi <= lo + 100 && SpaceOK(Branching(lo, hi))
    ensures Presented(Branching(lo, hi))
    ensures LiveBranch(Branching(lo, hi), Branching(lo, hi)[0])
    ensures LiveBranch(Branching(lo, hi), Branching(lo, hi)[1]) <==> lo <= 1 <= hi
  {
    var params := Branching(lo, hi);
    hide SpaceOK;
    assert params[0] in params && params[1] in params && params[1].conditions[0] in params[1].conditions;
    if lo <= 1 <= hi { assert Whole(lo, hi)[1 - lo] == Int(1); }
  }

  // ---- one value -----------------------------------------------------------------------------

  // Integers are widened where a float is expected.
  function Widen(k: Kind, v: Value): Value {
    if k.Continuous? && v.Int? then Float(v.i as real) else v
  }

  // None where encode raises.
  function EncodeValue(k: Kind, domain: Domain, v: Value): Option<Code> {
    match domain
    case Tokens(raw) => if v in raw then Some(Token(IndexOf(raw, v))) else None
    case Listed(values) =>
      if !TypeFits(k, v) || Widen(k, v) !in values then None else Some(Raw(Widen(k, v)))
    case Bounded =>
      if !TypeFits(k, v) || !InDomain(k, Widen(k, v)) then None else Some(Raw(Widen(k, v)))
  }

  predicate TypeFits(k: Kind, v: Value) {
    match k
    case Categorical(_) => v.Str?
    case Boolean => v.Bool?
    case Integer(_, _) => v.Int?
    case Continuous(_, _) => v.Float? || v.Int?
  }

  // None where decode raises before its closing check.
  function DecodeValue(k: Kind, domain: Domain, c: Code): Option<Value> {
    match domain
    case Tokens(raw) => if c.Token? && c.i < |raw| then Some(raw[c.i]) else None
    case _ => if c.Raw? then Some(Widen(k, c.v)) else None
  }

  lemma IndexIsOnly(choices: seq<Value>, i: nat)
    requires i < |choices| && forall a, b :: 0 <= a < b < |choices| ==> choices[a] != choices[b]
    ensures IndexOf(choices, choices[i]) == i
  {
  }

  // Encoding a value accepts exactly the widened domain, and decoding undoes it.
  lemma ValueCodec(k: Kind, controls: bool, v: Value)
    requires Sound(k) && DomainOf(k, controls).Some?
    ensures var domain := DomainOf(k, controls).value;
            && (EncodeValue(k, domain, v).Some? <==> InDomain(k, Widen(k, v)))
            && (EncodeValue(k, domain, v).Some? ==>
                  DecodeValue(k, domain, EncodeValue(k, domain, v).value) == Some(Widen(k, v)))
  {
    if k.Integer? && controls && k.lo < k.hi {
      forall i | k.lo <= i <= k.hi ensures Int(i) in Whole(k.lo, k.hi) {
        assert Whole(k.lo, k.hi)[i - k.lo] == Int(i);
      }
    }
  }

  // Decoding a code that encodes again gives the code back, up to widening.
  lemma CodeValue(k: Kind, controls: bool, c: Code)
    requires Sound(k) && DomainOf(k, controls).Some?
    ensures var domain := DomainOf(k, controls).value;
            var v := DecodeValue(k, domain, c);
            v.Some? && EncodeValue(k, domain, v.value).Some? ==>
              EncodeValue(k, domain, v.value).value == WidenCode(k, c)
  {
    if k.Categorical? && c.Token? && c.i < |k.choices| { IndexIsOnly(k.choices, c.i); }
  }

  function WidenCode(k: Kind, c: Code): Code {
    if c.Raw? then Raw(Widen(k, c.v)) else c
  }

  // ---- whole points ----------------------------------------------------------------------------

  function ActiveNames(params: seq<Param>, x: Point): set<string> {
    set p | p in params && Active(p, x) :: p.name
  }

  predicate Accepts(params: seq<Param>, x: Point)
    requires Tree(params)
  {
    && x.Keys == ActiveNames(params, x)
    && forall i :: 0 <= i < |params| && params[i].name in x ==>
         EncodeValue(params[i].kind, ColumnDomain(params, i), x[params[i].name]).Some?
  }

  function RootPart(params: seq<Param>): Encoded {
    if HasParent(params) then map[Root := All] else map[]
  }

  function Columns(params: seq<Param>, x: Point): Encoded
    requires Tree(params) && Accepts(params, x)
  {
    map key | key in ColumnKeys(params, x) ::
      EncodeValue(params[key.i].kind, ColumnDomain(params, key.i), x[params[key.i].name]).value
  }

  function ColumnKeys(params: seq<Param>, x: Point): (r: set<Key>)
    ensures forall key :: key in r <==> key.Column? && key.i < |params| && params[key.i].name in x
  {
    set i | 0 <= i < |params| && params[i].name in x :: Column(i)
  }

  function EncodePoint(params: seq<Param>, x: Point): Option<Encoded>
    requires Tree(params)
  {
    if Accepts(params, x) then Some(RootPart(params) + Columns(params, x)) else None
  }

  // encode
  method Encode(params: seq<Param>, domains: seq<Domain>, x: Point) returns (out: Option<Encoded>)
    requires Tree(params) && DomainsOf(params, domains)
    ensures out == EncodePoint(params, x)
  {
    hide Tree, ActiveNames, EncodeValue, DomainOf;
    if x.Keys != ActiveNames(params, x) { return None; }
    var columns: Encoded := map[];
    for i := 0 to |params|
      invariant forall key :: key in columns <==> key.Column? && key.i < i && params[key.i].name in x
      invariant forall key :: key in columns ==>
                  EncodeValue(params[key.i].kind, domains[key.i], x[params[key.i].name]) == Some(columns[key])
    {
      if params[i].name in x {
        var code := EncodeValue(params[i].kind, domains[i], x[params[i].name]);
        if code.None? { return None; }
        columns := columns[Column(i) := code.value];
      }
    }
    EncodeAssembled(params, domains, x, columns);
    out := Some(RootPart(params) + columns);
  }

  lemma EncodeAssembled(params: seq<Param>, domains: seq<Domain>, x: Point, columns: Encoded)
    requires Tree(params) && DomainsOf(params, domains) && x.Keys == ActiveNames(params, x)
    requires forall key :: key in columns <==> key.Column? && key.i < |params| && params[key.i].name in x
    requires forall key :: key in columns ==>
               EncodeValue(params[key.i].kind, domains[key.i], x[params[key.i].name]) == Some(columns[key])
    ensures EncodePoint(params, x) == Some(RootPart(params) + columns)
  {
    hide EncodeValue, Tree, ActiveNames, DomainOf;
    forall i | 0 <= i < |params| && params[i].name in x
      ensures EncodeValue(params[i].kind, ColumnDomain(params, i), x[params[i].name]).Some?
    {
      assert Column(i) in columns;
    }
    assert Columns(params, x) == columns;
  }

  // Python's equality on codes: numbers compare across types.
  function Numeric(v: Value): Option<real> {
    if v.Bool? then Some(if v.b then 1.0 else 0.0) else Number(v)
  }

  predicate SameCode(a: Code, b: Code) {
    a == b || (a.Raw? && b.Raw? && Numeric(a.v).Some? && Numeric(a.v) == Numeric(b.v))
  }

  // Numbers and booleans are compared by size, whatever their types; everything else
  // only equals itself.
  lemma CodesAreComparedBySize(a: Code, b: Code)
    ensures a.Raw? && b.Raw? && a.v.Int? && b.v.Float? ==> (SameCode(a, b) <==> a.v.i as real == b.v.r)
    ensures a.Raw? && b.Raw? && a.v.Bool? && b.v.Float? ==> (SameCode(a, b) <==> b.v.r == if a.v.b then 1.0 else 0.0)
    ensures a.Raw? && b.Raw? && a.v.Bool? && b.v.Int? ==> (SameCode(a, b) <==> b.v.i == if a.v.b then 1 else 0)
    ensures !(a.Raw? && b.Raw?) || a.v.Str? || b.v.Str? || (a.v.Int? && b.v.Int?) ==> (SameCode(a, b) <==> a == b)
    ensures SameCode(a, b) <==> SameCode(b, a)
  {
  }

  predicate SameEncoded(a: Encoded, b: Encoded) {
    a.Keys == b.Keys && forall key :: key in a ==> SameCode(a[key], b[key])
  }

  predicate Decodable(params: seq<Param>, e: Encoded)
    requires Tree(params)
  {
    forall i :: 0 <= i < |params| && Column(i) in e ==>
      DecodeValue(params[i].kind, ColumnDomain(params, i), e[Column(i)]).Some?
  }

  function ValueAt(params: seq<Param>, e: Encoded, i: nat): Value
    requires Tree(params) && Decodable(params, e) && i < |params| && Column(i) in e
  {
    DecodeValue(params[i].kind, ColumnDomain(params, i), e[Column(i)]).value
  }

  // The values read off the columns, before the closing check.
  function ReadColumns(params: seq<Param>, e: Encoded): Point
    requires Tree(params) && Decodable(params, e)
  {
    map n | n in Names(params) && Column(Rank(params, n)) in e :: ValueAt(params, e, Rank(params, n))
  }

  function DecodePoint(params: seq<Param>, e: Encoded): Option<Point>
    requires Tree(params)
  {
    if !Decodable(params, e) then None
    else
      var raw := ReadColumns(params, e);
      var again := EncodePoint(params, raw);
      if again.None? || !SameEncoded(again.value, e) then None else Some(raw)
  }

  lemma RankOfColumn(params: seq<Param>, i: nat)
    requires Distinct(params) && i < |params|
    ensures params[i].name in Names(params) && Rank(params, params[i].name) == i
  {
    assert params[i] in params;
  }

  // The columns seen so far have been read.
  ghost predicate ReadSoFar(params: seq<Param>, domains: seq<Domain>, seen: seq<nat>, e: Encoded, raw: Point)
    requires |domains| == |params|
  {
    raw.Keys <= Names(params) && forall n :: n in Names(params) ==> NameRead(params, domains, seen, e, raw, n)
  }

  predicate NameRead(params: seq<Param>, domains: seq<Domain>, seen: seq<nat>, e: Encoded, raw: Point, n: string)
    requires |domains| == |params| && n in Names(params)
  {
    var i := Rank(params, n);
    && (n in raw <==> i in seen && Column(i) in e)
    && (n in raw ==> DecodeValue(params[i].kind, domains[i], e[Column(i)]) == Some(raw[n]))
  }

  lemma ReadNext(params: seq<Param>, domains: seq<Domain>, seen: seq<nat>, e: Encoded, raw: Point, i: nat)
    requires Distinct(params) && |domains| == |params| && i < |params|
    requires ReadSoFar(params, domains, seen, e, raw)
    ensures Column(i) !in e ==> ReadSoFar(params, domains, seen + [i], e, raw)
    ensures Column(i) in e ==>
              var v := DecodeValue(params[i].kind, domains[i], e[Column(i)]);
              v.Some? ==> ReadSoFar(params, domains, seen + [i], e, raw[params[i].name := v.value])
  {
    RankOfColumn(params, i);
    var v := if Column(i) in e then DecodeValue(params[i].kind, domains[i], e[Column(i)]) else None;
    var next := if v.Some? then raw[params[i].name := v.value] else raw;
    hide Distinct, Names, DecodeValue, Rank;
    if Column(i) !in e || v.Some? {
      forall n | n in Names(params) ensures NameRead(params, domains, seen + [i], e, next, n) {
        assert NameRead(params, domains, seen, e, raw, n);
        RankName(params, n);
      }
    }
  }

  lemma ReadAll(params: seq<Param>, domains: seq<Domain>, order: seq<nat>, e: Encoded, raw: Point)
    requires Tree(params) && DomainsOf(params, domains) && ListsAll(order, |params|)
    requires ReadSoFar(params, domains, order, e, raw)
    ensures Decodable(params, e) && raw == ReadColumns(params, e)
  {
    DistinctTree(params);
    hide Tree, DecodeValue, DomainOf, Names, Rank, ColumnDomain;
    forall i | 0 <= i < |params| && Column(i) in e
      ensures DecodeValue(params[i].kind, domains[i], e[Column(i)]).Some?
    {
      RankOfColumn(params, i);
      assert NameRead(params, domains, order, e, raw, params[i].name);
    }
    assert Decodable(params, e);
    forall n | n in Names(params) ensures NameRead(params, domains, order, e, raw, n) { RankName(params, n); }
  }

  lemma Unreadable(params: seq<Param>, domains: seq<Domain>, e: Encoded, i: nat)
    requires Tree(params) && DomainsOf(params, domains) && i < |params|
    requires Column(i) in e && DecodeValue(params[i].kind, domains[i], e[Column(i)]).None?
    ensures DecodePoint(params, e).None?
  {
    hide Tree, DecodeValue, DomainOf, EncodePoint, ReadColumns;
  }

  // The order visits every column, and nothing else.
  ghost predicate ListsAll(order: seq<nat>, n: nat) {
    forall i :: 0 <= i < n <==> i in order
  }

  lemma ListsColumn(order: seq<nat>, n: nat, k: nat)
    requires ListsAll(order, n) && k < |order|
    ensures order[k] < n && order[..k + 1] == order[..k] + [order[k]]
  {
    assert order[k] in order;
  }

  // The domains of the columns, in order.
  ghost predicate DomainsOf(params: seq<Param>, domains: seq<Domain>)
    requires Tree(params)
  {
    |domains| == |params| && forall i :: 0 <= i < |params| ==> domains[i] == ColumnDomain(params, i)
  }

  lemma StartReading(params: seq<Param>, domains: seq<Domain>, e: Encoded)
    requires |domains| == |params|
    ensures ReadSoFar(params, domains, [], e, map[])
  {
    hide Names, Rank, DecodeValue;
  }

  // One column; None where decode raises.
  method ReadColumnAt(params: seq<Param>, domains: seq<Domain>, ghost seen: seq<nat>, e: Encoded, raw: Point, i: nat)
    returns (next: Option<Point>)
    requires Distinct(params) && |domains| == |params| && i < |params|
    requires ReadSoFar(params, domains, seen, e, raw)
    ensures next.Some? ==> ReadSoFar(params, domains, seen + [i], e, next.value)
    ensures next.None? ==> Column(i) in e && DecodeValue(params[i].kind, domains[i], e[Column(i)]).None?
  {
    ReadNext(params, domains, seen, e, raw, i);
    hide *;
    if Column(i) !in e { return Some(raw); }
    var v := DecodeValue(params[i].kind, domains[i], e[Column(i)]);
    next := if v.None? then None else Some(raw[params[i].name := v.value]);
  }

  // The loop over the columns.
  method ReadOff(params: seq<Param>, domains: seq<Domain>, order: seq<nat>, e: Encoded) returns (raw: Option<Point>)
    requires Tree(params) && DomainsOf(params, domains) && ListsAll(order, |params|)
    ensures raw.Some? ==> Decodable(params, e) && raw.value == ReadColumns(params, e)
    ensures raw.None? ==> DecodePoint(params, e).None?
  {
    DistinctTree(params);
    StartReading(params, domains, e);
    assert |domains| == |params|;
    hide *;
    var sofar: Point := map[];
    assert order[..0] == [];
    for k := 0 to |order|
      invariant ReadSoFar(params, domains, order[..k], e, sofar)
    {
      ListsColumn(order, |params|, k);
      var next := ReadColumnAt(params, domains, order[..k], e, sofar, order[k]);
      if next.None? {
        Unreadable(params, domains, e, order[k]);
        return None;
      }
      sofar := next.value;
    }
    assert order[..|order|] == order;
    ReadAll(params, domains, order, e, sofar);
    raw := Some(sofar);
  }

  lemma DecodeIs(params: seq<Param>, e: Encoded)
    requires Tree(params) && Decodable(params, e)
    ensures var raw := ReadColumns(params, e);
            var again := EncodePoint(params, raw);
            DecodePoint(params, e) == if again.None? || !SameEncoded(again.value, e) then None else Some(raw)
  {
    hide Tree, EncodePoint, ReadColumns, Decodable, SameEncoded;
  }

  // decode
  method Decode(params: seq<Param>, domains: seq<Domain>, order: seq<nat>, e: Encoded) returns (out: Option<Point>)
    requires Tree(params) && DomainsOf(params, domains) && ListsAll(order, |params|)
    ensures out == DecodePoint(params, e)
  {
    hide *;
    var raw := ReadOff(params, domains, order, e);
    if raw.None? { return None; }
    var again := Encode(params, domains, raw.value);
    DecodeIs(params, e);
    out := if again.None? || !SameEncoded(again.value, e) then None else raw;
  }

  lemma DistinctTree(params: seq<Param>)
    requires Tree(params)
    ensures Distinct(params)
  {
  }

  lemma RankName(params: seq<Param>, n: string)
    requires n in Names(params)
    ensures Rank(params, n) < |params| && params[Rank(params, n)].name == n
  {
  }

  // ---- round trips --------------------------------------------------------------------------------

  // The point with integers in float parameters made floats.
  function Widened(params: seq<Param>, x: Point): Point {
    map n | n in x && n in Names(params) :: Widen(params[Rank(params, n)].kind, x[n])
  }

  lemma WidenedActivity(params: seq<Param>, x: Point, p: Param)
    requires SpaceOK(params) && x.Keys <= Names(params) && p in params
    ensures Active(p, Widened(params, x)) <==> Active(p, x)
  {
    forall c | c in p.conditions ensures Met(c, x) <==> Met(c, Widened(params, x)) {
      assert !Lookup(params, c.controller).kind.Continuous?;
      if c.controller in x {
        var q := params[Rank(params, c.controller)];
        assert q in params;
        SameName(params, q, Lookup(params, c.controller));
      }
    }
  }

  lemma ActiveAreNames(params: seq<Param>, x: Point)
    ensures ActiveNames(params, x) <= Names(params)
  {
  }

  lemma WidenedActiveNames(params: seq<Param>, x: Point)
    requires SpaceOK(params) && x.Keys <= Names(params)
    ensures ActiveNames(params, Widened(params, x)) == ActiveNames(params, x)
  {
    hide SpaceOK, Widened, Names, Active;
    forall p | p in params ensures Active(p, Widened(params, x)) <==> Active(p, x) { WidenedActivity(params, x, p); }
  }

  lemma WidenedColumn(params: seq<Param>, x: Point, i: nat)
    requires Tree(params) && i < |params|
    ensures params[i].name in Widened(params, x) <==> params[i].name in x
    ensures params[i].name in x ==>
              EncodeValue(params[i].kind, ColumnDomain(params, i), Widened(params, x)[params[i].name])
              == EncodeValue(params[i].kind, ColumnDomain(params, i), x[params[i].name])
  {
    DistinctTree(params);
    RankOfColumn(params, i);
    ColumnDomainIs(params, i);
    hide Tree, Names, Rank, DomainOf, EncodeValue, Widen;
    if params[i].name in x { WidenTwice(params[i].kind, Controls(params, params[i].name), x[params[i].name]); }
  }

  lemma WidenedAccepts(params: seq<Param>, x: Point)
    requires Tree(params) && Accepts(params, x)
    ensures Widened(params, x).Keys == x.Keys
    ensures Accepts(params, Widened(params, x)) && Columns(params, Widened(params, x)) == Columns(params, x)
  {
    ActiveAreNames(params, x);
    assert SpaceOK(params) && x.Keys <= Names(params) && x.Keys == ActiveNames(params, x);
    hide *;
    WidenedKeys(params, x);
    WidenedActiveNames(params, x);
    forall i | 0 <= i < |params|
      ensures SameColumn(params, x, Widened(params, x), i)
    {
      WidenedColumn(params, x, i);
      SameColumnIs(params, x, Widened(params, x), i);
    }
    SameColumns(params, x, Widened(params, x));
  }

  predicate SameColumn(params: seq<Param>, x: Point, w: Point, i: nat)
    requires Tree(params) && i < |params|
  {
    && (params[i].name in w <==> params[i].name in x)
    && (params[i].name in x ==>
          EncodeValue(params[i].kind, ColumnDomain(params, i), w[params[i].name])
          == EncodeValue(params[i].kind, ColumnDomain(params, i), x[params[i].name]))
  }

  lemma SameColumnIs(params: seq<Param>, x: Point, w: Point, i: nat)
    requires Tree(params) && i < |params|
    requires params[i].name in w <==> params[i].name in x
    requires params[i].name in x ==>
               EncodeValue(params[i].kind, ColumnDomain(params, i), w[params[i].name])
               == EncodeValue(params[i].kind, ColumnDomain(params, i), x[params[i].name])
    ensures SameColumn(params, x, w, i)
  {
  }

  lemma SameColumns(params: seq<Param>, x: Point, w: Point)
    requires Tree(params) && Accepts(params, x) && w.Keys == x.Keys && ActiveNames(params, w) == ActiveNames(params, x)
    requires forall i :: 0 <= i < |params| ==> SameColumn(params, x, w, i)
    ensures Accepts(params, w) && Columns(params, w) == Columns(params, x)
  {
    hide Tree, ActiveNames, EncodeValue, DomainOf;
    forall i | 0 <= i < |params|
      ensures params[i].name in w ==>
                EncodeValue(params[i].kind, ColumnDomain(params, i), w[params[i].name]).Some?
                && EncodeValue(params[i].kind, ColumnDomain(params, i), w[params[i].name])
                   == EncodeValue(params[i].kind, ColumnDomain(params, i), x[params[i].name])
    {
      assert SameColumn(params, x, w, i);
    }
    assert Accepts(params, w);
    assert ColumnKeys(params, w) == ColumnKeys(params, x);
  }

  lemma WidenTwice(k: Kind, controls: bool, v: Value)
    requires Sound(k) && DomainOf(k, controls).Some?
    ensures EncodeValue(k, DomainOf(k, controls).value, Widen(k, v)) == EncodeValue(k, DomainOf(k, controls).value, v)
  {
  }

  lemma ColumnDomainIs(params: seq<Param>, i: nat)
    requires Tree(params) && i < |params|
    ensures Sound(params[i].kind)
    ensures DomainOf(params[i].kind, Controls(params, params[i].name)) == Some(ColumnDomain(params, i))
  {
    assert params[i] in params;
    SoundAt(params, i);
  }

  // One column of an encoded point.
  lemma EncodedColumn(params: seq<Param>, x: Point, i: nat)
    requires Tree(params) && Accepts(params, x) && i < |params|
    ensures var e := RootPart(params) + Columns(params, x);
            && (Column(i) in e <==> params[i].name in x)
            && (Column(i) in e ==>
                  EncodeValue(params[i].kind, ColumnDomain(params, i), x[params[i].name]) == Some(e[Column(i)]))
  {
    hide Tree, EncodeValue, DomainOf, ActiveNames;
  }

  lemma ColumnReads(params: seq<Param>, x: Point, i: nat)
    requires Tree(params) && Accepts(params, x) && i < |params|
    ensures var e := RootPart(params) + Columns(params, x);
            && (Column(i) in e <==> params[i].name in x)
            && (Column(i) in e ==>
                  DecodeValue(params[i].kind, ColumnDomain(params, i), e[Column(i)])
                  == Some(Widen(params[i].kind, x[params[i].name])))
  {
    hide *;
    EncodedColumn(params, x, i);
    ColumnDomainIs(params, i);
    if params[i].name in x {
      ValueCodec(params[i].kind, Controls(params, params[i].name), x[params[i].name]);
    }
  }

  lemma EncodedIsDecodable(params: seq<Param>, x: Point)
    requires Tree(params) && Accepts(params, x)
    ensures Decodable(params, RootPart(params) + Columns(params, x))
  {
    hide Tree, Accepts, Columns, RootPart, DecodeValue, Widen, DomainOf;
    var e := RootPart(params) + Columns(params, x);
    forall i | 0 <= i < |params| && Column(i) in e
      ensures DecodeValue(params[i].kind, ColumnDomain(params, i), e[Column(i)]).Some?
    {
      ColumnReads(params, x, i);
    }
  }

  lemma ReadName(params: seq<Param>, x: Point, n: string)
    requires Tree(params) && Accepts(params, x) && Decodable(params, RootPart(params) + Columns(params, x))
    requires n in Names(params)
    ensures var raw := ReadColumns(params, RootPart(params) + Columns(params, x));
            var w := Widened(params, x);
            (n in raw <==> n in w) && (n in raw ==> raw[n] == w[n])
  {
    RankName(params, n);
    hide Tree, Accepts, Columns, RootPart, DecodeValue, Widen, DomainOf, Names, Rank, Decodable;
    ColumnReads(params, x, Rank(params, n));
  }

  lemma ReadsWidened(params: seq<Param>, x: Point)
    requires Tree(params) && Accepts(params, x)
    ensures var e := RootPart(params) + Columns(params, x);
            Decodable(params, e) && ReadColumns(params, e) == Widened(params, x)
  {
    hide Tree, Accepts, Columns, RootPart, Decodable, Names, Rank;
    EncodedIsDecodable(params, x);
    var raw, w := ReadColumns(params, RootPart(params) + Columns(params, x)), Widened(params, x);
    assert raw.Keys <= Names(params) && w.Keys <= Names(params);
    hide ReadColumns, Widened;
    forall n | n in Names(params) ensures (n in raw <==> n in w) && (n in raw ==> raw[n] == w[n]) {
      ReadName(params, x, n);
    }
  }

  // Main result: decoding an encoded point gives it back, with integers widened in
  // float parameters; the closing check never fails.
  lemma DecodeUndoesEncode(params: seq<Param>, x: Point)
    requires Tree(params) && EncodePoint(params, x).Some?
    ensures DecodePoint(params, EncodePoint(params, x).value) == Some(Widened(params, x))
  {
    hide Tree, Accepts, Widened, Columns, ReadColumns, Decodable, RootPart;
    var e := EncodePoint(params, x).value;
    ReadsWidened(params, x);
    WidenedAccepts(params, x);
    assert EncodePoint(params, Widened(params, x)) == Some(e);
  }

  // What decodes is already widened.
  lemma DecodedIsWidened(params: seq<Param>, e: Encoded)
    requires Tree(params) && DecodePoint(params, e).Some?
    ensures Widened(params, DecodePoint(params, e).value) == DecodePoint(params, e).value
  {
    hide DecodePoint, EncodePoint, Tree, DomainOf, Rank, Names, Decodable, Accepts, Columns, RootPart, Widen, ValueAt;
    DecodedFacts(params, e);
    var raw := ReadColumns(params, e);
    hide ReadColumns;
    forall n | n in raw ensures n in Names(params) && Widen(params[Rank(params, n)].kind, raw[n]) == raw[n] {
      ReadIsWidened(params, e, n);
    }
  }

  lemma ReadIsWidened(params: seq<Param>, e: Encoded, n: string)
    requires Tree(params) && Decodable(params, e) && n in ReadColumns(params, e)
    ensures n in Names(params) && Widen(params[Rank(params, n)].kind, ReadColumns(params, e)[n]) == ReadColumns(params, e)[n]
  {
    hide Tree, DomainOf, Rank, Names, Widen, DecodeValue;
    var i := Rank(params, n);
    ColumnDomainIs(params, i);
    DecodeWidens(params[i].kind, Controls(params, params[i].name), e[Column(i)]);
  }

  lemma DecodeWidens(k: Kind, controls: bool, c: Code)
    requires Sound(k) && DomainOf(k, controls).Some?
    ensures var v := DecodeValue(k, DomainOf(k, controls).value, c);
            v.Some? ==> Widen(k, v.value) == v.value
  {
  }

  // On points whose float parameters hold floats, widening does nothing.
  predicate Typed(params: seq<Param>, x: Point) {
    forall i :: 0 <= i < |params| && params[i].name in x && params[i].kind.Continuous? ==> !x[params[i].name].Int?
  }

  lemma TypedIsWidened(params: seq<Param>, x: Point)
    requires Typed(params, x) && x.Keys <= Names(params)
    ensures Widened(params, x) == x
  {
    forall n | n in x ensures n in Widened(params, x) && Widened(params, x)[n] == x[n] { RankName(params, n); }
  }

  // Main result: encoding is injective on typed points.
  lemma EncodeIsInjective(params: seq<Param>, x: Point, y: Point)
    requires Tree(params) && EncodePoint(params, x).Some? && EncodePoint(params, x) == EncodePoint(params, y)
    ensures Widened(params, x) == Widened(params, y)
    ensures Typed(params, x) && Typed(params, y) ==> x == y
  {
    ActiveAreNames(params, x);
    ActiveAreNames(params, y);
    assert x.Keys <= Names(params) && y.Keys <= Names(params);
    hide *;
    DecodeUndoesEncode(params, x);
    DecodeUndoesEncode(params, y);
    if Typed(params, x) && Typed(params, y) {
      TypedIsWidened(params, x);
      TypedIsWidened(params, y);
    }
  }

  // Main result: encode accepts exactly the points of the space, integers counting
  // as floats.
  lemma EncodeAcceptsPoints(params: seq<Param>, x: Point)
    requires Tree(params) && x.Keys <= Names(params)
    ensures EncodePoint(params, x).Some? <==> IsPoint(params, Widened(params, x))
  {
    var w := Widened(params, x);
    assert SpaceOK(params);
    hide *;
    DistinctTree(params);
    WidenedKeys(params, x);
    forall p | p in params ensures Active(p, w) <==> Active(p, x) { WidenedActivity(params, x, p); }
    KeysAreActive(params, x, w);
    forall i | 0 <= i < |params| ensures ColumnFits(params, x, w, i) { ColumnFitsAt(params, x, i); }
    FitsIsPoint(params, x, w);
  }

  // A column accepts the value it is given exactly when the widened one is in range.
  predicate ColumnFits(params: seq<Param>, x: Point, w: Point, i: nat)
    requires Tree(params) && i < |params|
  {
    && (params[i].name in w <==> params[i].name in x)
    && (params[i].name in x ==>
          (EncodeValue(params[i].kind, ColumnDomain(params, i), x[params[i].name]).Some?
           <==> InDomain(params[i].kind, w[params[i].name])))
  }

  lemma ColumnFitsAt(params: seq<Param>, x: Point, i: nat)
    requires Tree(params) && i < |params| && x.Keys <= Names(params)
    ensures ColumnFits(params, x, Widened(params, x), i)
  {
    WidenedKeys(params, x);
    DistinctTree(params);
    RankOfColumn(params, i);
    ColumnDomainIs(params, i);
    hide Tree, DomainOf, EncodeValue, InDomain, Names, Rank, Widen;
    if params[i].name in x {
      WidenedAt(params, x, params[i].name);
      ValueCodec(params[i].kind, Controls(params, params[i].name), x[params[i].name]);
    }
  }

  lemma FitsIsPoint(params: seq<Param>, x: Point, w: Point)
    requires Tree(params) && w.Keys == x.Keys && x.Keys <= Names(params)
    requires x.Keys == ActiveNames(params, x) <==> forall p :: p in params ==> (p.name in w <==> Active(p, w))
    requires forall i :: 0 <= i < |params| ==> ColumnFits(params, x, w, i)
    ensures Accepts(params, x) <==> IsPoint(params, w)
    ensures EncodePoint(params, x).Some? <==> IsPoint(params, w)
  {
    hide Tree, ActiveNames, Active, EncodeValue, InDomain, DomainOf, Names;
    if Accepts(params, x) {
      forall p | p in params && p.name in w ensures InDomain(p.kind, w[p.name]) {
        var i :| 0 <= i < |params| && params[i] == p;
        assert ColumnFits(params, x, w, i);
      }
    }
    if IsPoint(params, w) {
      forall i | 0 <= i < |params| && params[i].name in x
        ensures EncodeValue(params[i].kind, ColumnDomain(params, i), x[params[i].name]).Some?
      {
        assert ColumnFits(params, x, w, i) && params[i] in params;
      }
    }
  }

  lemma WidenedKeys(params: seq<Param>, x: Point)
    requires x.Keys <= Names(params)
    ensures Widened(params, x).Keys == x.Keys
  {
  }

  lemma WidenedAt(params: seq<Param>, x: Point, n: string)
    requires n in Names(params) && n in x
    ensures n in Widened(params, x) && Widened(params, x)[n] == Widen(params[Rank(params, n)].kind, x[n])
  {
  }

  lemma KeysAreActive(params: seq<Param>, x: Point, w: Point)
    requires x.Keys <= Names(params) && w.Keys == x.Keys && Distinct(params)
    requires forall p :: p in params ==> (Active(p, w) <==> Active(p, x))
    ensures x.Keys == ActiveNames(params, x) <==> forall p :: p in params ==> (p.name in w <==> Active(p, w))
  {
    if x.Keys == ActiveNames(params, x) {
      forall p | p in params && p.name in w ensures Active(p, w) {
        var q :| q in params && Active(q, x) && q.name == p.name;
        SameName(params, p, q);
      }
    }
    if forall p :: p in params ==> (p.name in w <==> Active(p, w)) {
      forall n | n in x ensures n in ActiveNames(params, x) {
        var p :| p in params && p.name == n;
      }
    }
  }

  // Main result: whatever decodes, encodes again to the same code with integers
  // widened in float columns, and its point is accepted.
  lemma EncodeUndoesDecode(params: seq<Param>, e: Encoded)
    requires Tree(params) && DecodePoint(params, e).Some?
    ensures EncodePoint(params, DecodePoint(params, e).value).Some?
    ensures var again := EncodePoint(params, DecodePoint(params, e).value).value;
            && again.Keys == e.Keys
            && (forall i :: 0 <= i < |params| && Column(i) in e ==>
                  again[Column(i)] == WidenCode(params[i].kind, e[Column(i)]))
            && (Root in e ==> e[Root] == All)
  {
    DecodedFacts(params, e);
    hide *;
    RootOfEncoding(params, DecodePoint(params, e).value);
    forall i | 0 <= i < |params| && Column(i) in e
      ensures EncodePoint(params, DecodePoint(params, e).value).value[Column(i)] == WidenCode(params[i].kind, e[Column(i)])
    {
      ColumnAgain(params, e, i);
    }
  }

  lemma DecodedFacts(params: seq<Param>, e: Encoded)
    requires Tree(params) && DecodePoint(params, e).Some?
    ensures Decodable(params, e)
    ensures var raw := ReadColumns(params, e);
            && DecodePoint(params, e) == Some(raw) && Accepts(params, raw)
            && var again := RootPart(params) + Columns(params, raw);
            && EncodePoint(params, raw) == Some(again) && again.Keys == e.Keys
            && (Root in e ==> again[Root] == All ==> e[Root] == All)
  {
    hide Tree, Accepts, Decodable, ReadColumns, Columns, RootPart;
  }

  lemma ColumnAgain(params: seq<Param>, e: Encoded, i: nat)
    requires Tree(params) && Decodable(params, e) && i < |params| && Column(i) in e
    requires Accepts(params, ReadColumns(params, e))
    ensures var again := RootPart(params) + Columns(params, ReadColumns(params, e));
            Column(i) in again && again[Column(i)] == WidenCode(params[i].kind, e[Column(i)])
  {
    ReadColumn(params, e, i);
    hide *;
    EncodedColumn(params, ReadColumns(params, e), i);
    ColumnDomainIs(params, i);
    CodeValue(params[i].kind, Controls(params, params[i].name), e[Column(i)]);
  }

  lemma ReadColumn(params: seq<Param>, e: Encoded, i: nat)
    requires Tree(params) && Decodable(params, e) && i < |params| && Column(i) in e
    ensures params[i].name in ReadColumns(params, e)
    ensures DecodeValue(params[i].kind, ColumnDomain(params, i), e[Column(i)])
         == Some(ReadColumns(params, e)[params[i].name])
  {
    DistinctTree(params);
    RankOfColumn(params, i);
    hide Tree, DecodeValue, DomainOf, Rank, Names;
  }

  lemma RootOfEncoding(params: seq<Param>, x: Point)
    requires Tree(params) && EncodePoint(params, x).Some?
    ensures var e := EncodePoint(params, x).value;
            (Root in e <==> HasParent(params)) && (Root in e ==> e[Root] == All)
  {
    hide Tree, Accepts, HasParent, EncodeValue;
    assert Root !in Columns(params, x);
    hide Columns;
  }

  // The encoding follows the tree the generator is given: a dependent column is
  // present exactly when its parent's column holds the code it depends on.
  lemma EncodingFollowsTree(params: seq<Param>, x: Point, i: nat, j: nat)
    requires Tree(params) && EncodePoint(params, x).Some? && i < |params| && j < |params|
    requires |params[i].conditions| == 1 && params[i].conditions[0].controller == params[j].name
    ensures var e := EncodePoint(params, x).value;
            var dependsOn := EncodeValue(params[j].kind, ColumnDomain(params, j), params[i].conditions[0].allowed[0]);
            |params[i].conditions[0].allowed| == 1 &&
            (Column(i) in e <==> Column(j) in e && dependsOn == Some(e[Column(j)]))
  {
    OneValue(params, i);
    var v := params[i].conditions[0].allowed[0];
    assert EncodePoint(params, x).value == RootPart(params) + Columns(params, x) && Accepts(params, x);
    hide *;
    MemberIsActive(params, x, i);
    ActiveByParent(params, x, i, j);
    ParentIsDiscrete(params, i, j);
    EncodedColumn(params, x, i);
    EncodedColumn(params, x, j);
    if params[j].name in x {
      DiscreteCodesDiffer(params[j].kind, ColumnDomain(params, j), x[params[j].name], v);
    }
  }

  lemma OneValue(params: seq<Param>, i: nat)
    requires Tree(params) && i < |params| && |params[i].conditions| == 1
    ensures |params[i].conditions[0].allowed| == 1
  {
    assert params[i] in params && params[i].conditions[0] in params[i].conditions;
  }

  lemma ActiveByParent(params: seq<Param>, x: Point, i: nat, j: nat)
    requires i < |params| && j < |params| && |params[i].conditions| == 1
    requires params[i].conditions[0].controller == params[j].name && |params[i].conditions[0].allowed| == 1
    ensures Active(params[i], x)
       <==> params[j].name in x && x[params[j].name] == params[i].conditions[0].allowed[0]
  {
    var c := params[i].conditions[0];
    assert c in params[i].conditions;
    assert c.allowed[0] in c.allowed;
  }

  lemma MemberIsActive(params: seq<Param>, x: Point, i: nat)
    requires Tree(params) && Accepts(params, x) && i < |params|
    ensures params[i].name in x <==> Active(params[i], x)
  {
    assert params[i] in params;
    if params[i].name in x {
      var q :| q in params && Active(q, x) && q.name == params[i].name;
      SameName(params, params[i], q);
    }
  }

  lemma ParentIsDiscrete(params: seq<Param>, i: nat, j: nat)
    requires Tree(params) && i < |params| && j < |params|
    requires |params[i].conditions| == 1 && params[i].conditions[0].controller == params[j].name
    ensures !params[j].kind.Continuous?
  {
    var c := params[i].conditions[0];
    assert params[i] in params && c in params[i].conditions && params[j] in params;
    SameName(params, params[j], Lookup(params, c.controller));
  }

  lemma DiscreteCodesDiffer(k: Kind, domain: Domain, a: Value, b: Value)
    requires !k.Continuous? && EncodeValue(k, domain, a).Some?
    ensures EncodeValue(k, domain, a) == EncodeValue(k, domain, b) <==> a == b
  {
  }
}

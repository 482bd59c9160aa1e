/** The query-string helpers of the network utilities: parsing a query
    string into a parameter object, serializing such an object back, and
    splicing a query string onto a URL. */
module QueryString {
  import opened Common
  import opened UriComponent
  import opened QueryScan

  /** A property value of a parameter object: `null`/`undefined`, a scalar
      (its string form) or an array of scalars. */
  datatype ParamValue = Nullish | Single(s: string) | Multi(items: seq<string>)

  /** A parameter object: its own keys in enumeration order and their values. */
  datatype Params = Params(order: seq<string>, values: map<string, ParamValue>)

  /** `Object.create(null)`. */
  const Empty: Params := Params([], map[])

  predicate Distinct(ks: seq<string>)
  {
    forall i, j :: 0 <= i < j < |ks| ==> ks[i] != ks[j]
  }

  /** The representation invariant of a parameter object: each key once in
      the enumeration order, and exactly the keys that have values. */
  ghost predicate Valid(p: Params)
  {
    Distinct(p.order) && (forall k :: k in p.values <==> k in p.order)
  }

  /** `params[name]`; a missing property reads as `undefined`. */
  function Get(p: Params, name: string): ParamValue
  {
    if name in p.values then p.values[name] else Nullish
  }

  /** `params[name] = v`: a new key goes to the end of the order, an
      existing one keeps its place. */
  function Put(p: Params, name: string, v: ParamValue): Params
  {
    Params(if name in p.values then p.order else p.order + [name], p.values[name := v])
  }

  /** Assigning twice to one property leaves the last value, in the place
      the first assignment gave it. */
  lemma PutPut(p: Params, name: string, v: ParamValue, w: ParamValue)
    ensures Put(Put(p, name, v), name, w) == Put(p, name, w)
  {
  }

  lemma PutKeepsValid(p: Params, name: string, v: ParamValue)
    requires Valid(p)
    ensures Valid(Put(p, name, v))
  {
  }

  /** JavaScript truthiness of a stored value: arrays are always truthy,
      strings when non-empty. */
  predicate Truthy(v: ParamValue)
  {
    match v
    case Nullish => false
    case Single(s) => s != ""
    case Multi(_) => true
  }

  // ---------------------------------------------------------------------------
  // parseQueryString

  /** `name.replace('[]', '')`: a string pattern replaces only its first
      occurrence. */
  predicate BracketsAt(s: string, i: nat)
  {
    i + 1 < |s| && s[i] == '[' && s[i + 1] == ']'
  }

  function RemoveFirstBrackets(s: string): (r: string)
    ensures |r| == |s| || |r| + 2 == |s|
    ensures |r| == |s| ==> r == s
  {
    if |s| < 2 then s
    else if s[0] == '[' && s[1] == ']' then s[2..]
    else [s[0]] + RemoveFirstBrackets(s[1..])
  }

  /** A name without `[]` is left as it is. */
  lemma {:induction false} RemoveFirstBracketsUnchanged(s: string)
    requires forall i: nat :: !BracketsAt(s, i)
    ensures RemoveFirstBrackets(s) == s
    decreases |s|
  {
    if |s| >= 2 {
      assert !BracketsAt(s, 0);
      forall i: nat ensures !BracketsAt(s[1..], i) {
        assert !BracketsAt(s, i + 1);
      }
      RemoveFirstBracketsUnchanged(s[1..]);
    }
  }

  /** Only the first `[]` goes: the rest of the name, before and after it,
      is kept. */
  lemma {:induction false} RemoveFirstBracketsAt(s: string, i: nat)
    requires BracketsAt(s, i) && forall j: nat :: j < i ==> !BracketsAt(s, j)
    ensures RemoveFirstBrackets(s) == s[..i] + s[i + 2..]
    decreases i
  {
    if i == 0 {
      assert s[..0] + s[2..] == s[2..];
    } else {
      assert !BracketsAt(s, 0);
      assert BracketsAt(s[1..], i - 1);
      forall j: nat | j < i - 1 ensures !BracketsAt(s[1..], j) {
        assert !BracketsAt(s, j + 1);
      }
      RemoveFirstBracketsAt(s[1..], i - 1);
      calc {
        RemoveFirstBrackets(s);
        [s[0]] + RemoveFirstBrackets(s[1..]);
        [s[0]] + (s[1..][..i - 1] + s[1..][i + 1..]);
        { assert s[1..][..i - 1] == s[1..i]; assert s[1..][i + 1..] == s[i + 2..]; }
        [s[0]] + s[1..i] + s[i + 2..];
        { assert [s[0]] + s[1..i] == s[..i]; }
        s[..i] + s[i + 2..];
      }
    }
  }

  /** `value.replace(/\+/g, ' ')`. */
  function PlusToSpace(s: string): (r: string)
    ensures |r| == |s| && '+' !in r
    ensures forall i :: 0 <= i < |s| ==> r[i] == (if s[i] == '+' then ' ' else s[i])
    ensures '+' !in s ==> r == s
  {
    seq(|s|, i requires 0 <= i < |s| => if s[i] == '+' then ' ' else s[i])
  }

  /** The name and value one match contributes: the name decoded (falling
      back to the raw text) with its first `[]` removed; the value with `+`
      read as a space and decoded (falling back to the raw text), or `""`
      when the match has no `=`. */
  function DecodeMatch(c: Codec, m: RawMatch): (r: (string, string))
    ensures m.value.None? ==> r.1 == ""
    ensures !c.isClient ==> r.0 == RemoveFirstBrackets(m.name) && r.1 == (if m.value.Some? then m.value.value else "")
    ensures c.isClient && c.decode(m.name).Some? ==> r.0 == RemoveFirstBrackets(c.decode(m.name).value)
    ensures c.decode(m.name).None? ==> r.0 == RemoveFirstBrackets(m.name)
    ensures c.isClient && m.value.Some? && c.decode(PlusToSpace(m.value.value)).Some?
            ==> r.1 == c.decode(PlusToSpace(m.value.value)).value
    ensures m.value.Some? && c.decode(PlusToSpace(m.value.value)).None? ==> r.1 == m.value.value
  {
    (RemoveFirstBrackets(TryDecode(c, m.name, m.name)),
     match m.value
     case None => ""
     case Some(v) => TryDecode(c, PlusToSpace(v), v))
  }

  function DecodeAll(c: Codec, ms: seq<RawMatch>): (r: seq<(string, string)>)
    ensures |r| == |ms|
  {
    if ms == [] then [] else [DecodeMatch(c, ms[0])] + DecodeAll(c, ms[1..])
  }

  /** The effect of one loop iteration on `params`: a name seen for the first
      time, or whose stored value is falsy (`""`), gets the value; a truthy
      scalar is wrapped in an array with the value; an array gets the value
      pushed. */
  function Step(p: Params, name: string, value: string): (r: Params)
    ensures !Truthy(Get(p, name)) ==> Get(r, name) == Single(value)
    ensures Get(p, name).Single? && Truthy(Get(p, name)) ==> Get(r, name) == Multi([Get(p, name).s, value])
    ensures Get(p, name).Multi? ==> Get(r, name) == Multi(Get(p, name).items + [value])
    ensures forall k :: k != name ==> Get(r, k) == Get(p, k)
    ensures r.order == if name in p.values then p.order else p.order + [name]
  {
    match Get(p, name)
    case Multi(xs) => Put(p, name, Multi(xs + [value]))
    case Single(s) => if s == "" then Put(p, name, Single(value)) else Put(p, name, Multi([s, value]))
    case Nullish => Put(p, name, Single(value))
  }

  /** Wrapping a truthy scalar in an array and then pushing onto that array
      is the scalar case of `Step`. */
  lemma WrapThenPush(p: Params, name: string, s: string, value: string)
    requires Get(p, name) == Single(s) && s != ""
    ensures var q := Put(p, name, Multi([s]));
      Put(q, name, Multi(Get(q, name).items + [value])) == Step(p, name, value)
  {
    PutPut(p, name, Multi([s]), Multi([s] + [value]));
    assert [s] + [value] == [s, value];
  }

  /** Applying the loop iteration to each pair in order. */
  function Accumulate(p: Params, pairs: seq<(string, string)>): Params
    decreases |pairs|
  {
    if pairs == [] then p else Accumulate(Step(p, pairs[0].0, pairs[0].1), pairs[1..])
  }

  /** The shape of every object `parseQueryString` builds: a valid object
      whose values are strings or arrays of at least two strings. */
  ghost predicate ParsedShape(p: Params)
  {
    Valid(p) && forall k :: k in p.values ==> (p.values[k].Single? || (p.values[k].Multi? && |p.values[k].items| >= 2))
  }

  lemma StepKeepsShape(p: Params, name: string, value: string)
    requires ParsedShape(p)
    ensures ParsedShape(Step(p, name, value))
  {
    match Get(p, name)
    case Multi(xs) => PutKeepsValid(p, name, Multi(xs + [value]));
    case Single(s) => PutKeepsValid(p, name, Single(value)); PutKeepsValid(p, name, Multi([s, value]));
    case Nullish => PutKeepsValid(p, name, Single(value));
  }

  lemma {:induction false} AccumulateKeepsShape(p: Params, pairs: seq<(string, string)>)
    requires ParsedShape(p)
    ensures ParsedShape(Accumulate(p, pairs))
    decreases |pairs|
  {
    if pairs != [] {
      StepKeepsShape(p, pairs[0].0, pairs[0].1);
      AccumulateKeepsShape(Step(p, pairs[0].0, pairs[0].1), pairs[1..]);
    }
  }

  /** What `parseQueryString(qs)` returns; `None` is `undefined`. */
  function ParseSpec(c: Codec, qs: Option<string>): (r: Params)
    ensures qs.None? ==> r == Empty
    ensures ParsedShape(r)
  {
    match qs
    case None => Empty
    case Some(s) =>
      AccumulateKeepsShape(Empty, DecodeAll(c, Matches(s, 0)));
      Accumulate(Empty, DecodeAll(c, Matches(s, 0)))
  }

  /** `parseQueryString(qs)`: the `exec` loop, updating `params` in place. */
  method ParseQueryString(c: Codec, qs: Option<string>) returns (params: Params)
    ensures params == ParseSpec(c, qs)
    ensures ParsedShape(params)
  {
    params := Empty;
    if qs.None? {
      return;
    }
    var s := qs.value;
    var pos := 0;
    var found := Exec(s, pos);
    while found.Some?
      invariant pos <= |s|
      invariant found == Exec(s, pos)
      invariant Accumulate(params, DecodeAll(c, Matches(s, pos))) == ParseSpec(c, qs)
      decreases |s| - pos
    {
      var m := found.value.m;
      assert Matches(s, pos) == [m] + Matches(s, found.value.end);
      assert DecodeAll(c, Matches(s, pos)) == [DecodeMatch(c, m)] + DecodeAll(c, Matches(s, found.value.end));
      var name := RemoveFirstBrackets(TryDecode(c, m.name, m.name));
      var value := if m.value.Some? then TryDecode(c, PlusToSpace(m.value.value), m.value.value) else "";
      var current := Get(params, name);
      ghost var before := params;
      assert DecodeMatch(c, m) == (name, value);
      if Truthy(current) && !current.Multi? {
        params := Put(params, name, Multi([current.s]));
      }
      if Truthy(current) {
        params := Put(params, name, Multi(Get(params, name).items + [value]));
        if !current.Multi? {
          WrapThenPush(before, name, current.s, value);
        }
      } else {
        params := Put(params, name, Single(value));
      }
      assert params == Step(before, name, value);
      assert Accumulate(before, DecodeAll(c, Matches(s, pos)))
          == Accumulate(params, DecodeAll(c, Matches(s, found.value.end)));
      pos := found.value.end;
      found := Exec(s, pos);
    }
  }

  // ---------------------------------------------------------------------------
  // serializeQueryString

  /** The `name=value` pairs of one array value, in array order. */
  function ItemPairs(name: string, xs: seq<string>): (r: seq<(string, string)>)
    ensures |r| == |xs|
    ensures forall i :: 0 <= i < |xs| ==> r[i] == (name, xs[i])
  {
    if xs == [] then [] else [(name, xs[0])] + ItemPairs(name, xs[1..])
  }

  /** The pairs one property contributes: none for `null`/`undefined`, one
      for a scalar, one per element for an array. */
  function ParamPairs(name: string, v: ParamValue): seq<(string, string)>
  {
    match v
    case Nullish => []
    case Single(s) => [(name, s)]
    case Multi(xs) => ItemPairs(name, xs)
  }

  /** The pairs of the given keys, in key order. */
  function PairsOf(p: Params, keys: seq<string>): seq<(string, string)>
    decreases |keys|
  {
    if keys == [] then []
    else PairsOf(p, keys[..|keys| - 1]) + ParamPairs(keys[|keys| - 1], Get(p, keys[|keys| - 1]))
  }

  /** Every pair the object emits, in `Object.keys` order. */
  function Entries(p: Params): seq<(string, string)>
  {
    PairsOf(p, p.order)
  }

  function FormatPair(c: Codec, name: string, value: string): string
  {
    c.encode(name) + "=" + c.encode(value)
  }

  function FormatAll(c: Codec, pairs: seq<(string, string)>): (r: seq<string>)
    ensures |r| == |pairs|
  {
    if pairs == [] then [] else [FormatPair(c, pairs[0].0, pairs[0].1)] + FormatAll(c, pairs[1..])
  }

  /** `"&" + part` for every part, concatenated. */
  function AmpEach(parts: seq<string>): string
  {
    if parts == [] then "" else "&" + parts[0] + AmpEach(parts[1..])
  }

  /** `parts.join('&')`. */
  function JoinAmp(parts: seq<string>): string
  {
    if parts == [] then "" else parts[0] + AmpEach(parts[1..])
  }

  /** What `serializeQueryString(params)` returns. */
  function SerializeSpec(c: Codec, p: Params): string
  {
    JoinAmp(FormatAll(c, Entries(p)))
  }

  lemma {:induction false} FormatAllAppend(c: Codec, a: seq<(string, string)>, b: seq<(string, string)>)
    ensures FormatAll(c, a + b) == FormatAll(c, a) + FormatAll(c, b)
    decreases |a|
  {
    if a != [] {
      FormatAllAppend(c, a[1..], b);
      calc {
        FormatAll(c, a + b);
        [FormatPair(c, a[0].0, a[0].1)] + FormatAll(c, (a + b)[1..]);
        { assert (a + b)[1..] == a[1..] + b; }
        [FormatPair(c, a[0].0, a[0].1)] + FormatAll(c, a[1..]) + FormatAll(c, b);
      }
    } else {
      assert a + b == b;
    }
  }

  lemma {:induction false} ItemPairsSnoc(name: string, xs: seq<string>, x: string)
    ensures ItemPairs(name, xs + [x]) == ItemPairs(name, xs) + [(name, x)]
  {
  }

  /** `value.forEach((v) => appendQueryParam(param, v))`: one
      `name=value` string per element, pushed in array order. */
  method PushEach(c: Codec, qs: seq<string>, name: string, xs: seq<string>) returns (r: seq<string>)
    ensures r == qs + FormatAll(c, ItemPairs(name, xs))
  {
    r := qs;
    var j := 0;
    while j < |xs|
      invariant j <= |xs|
      invariant r == qs + FormatAll(c, ItemPairs(name, xs[..j]))
    {
      assert xs[..j + 1] == xs[..j] + [xs[j]];
      ItemPairsSnoc(name, xs[..j], xs[j]);
      FormatAllAppend(c, ItemPairs(name, xs[..j]), [(name, xs[j])]);
      r := r + [FormatPair(c, name, xs[j])];
      j := j + 1;
    }
    assert xs[..j] == xs;
  }

  /** `serializeQueryString(params)`: `forEach` over the keys (and over the
      elements of an array value), pushing `name=value` strings, then
      `join('&')`. */
  method SerializeQueryString(c: Codec, p: Params) returns (r: string)
    ensures r == SerializeSpec(c, p)
  {
    var qs: seq<string> := [];
    var i := 0;
    while i < |p.order|
      invariant i <= |p.order|
      invariant qs == FormatAll(c, PairsOf(p, p.order[..i]))
    {
      var name := p.order[i];
      var value := Get(p, name);
      ghost var before := PairsOf(p, p.order[..i]);
      assert p.order[..i + 1][..i] == p.order[..i];
      assert PairsOf(p, p.order[..i + 1]) == before + ParamPairs(name, value);
      FormatAllAppend(c, before, ParamPairs(name, value));
      ghost var added := FormatAll(c, ParamPairs(name, value));
      match value {
        case Nullish =>
          assert added == [];
          assert qs == qs + added;
        case Single(x) =>
          assert added == [FormatPair(c, name, x)];
          qs := qs + [FormatPair(c, name, x)];
        case Multi(xs) =>
          qs := PushEach(c, qs, name, xs);
      }
      assert qs == FormatAll(c, before) + added;
      i := i + 1;
    }
    assert p.order[..i] == p.order;
    r := JoinAmp(qs);
  }

  // ---------------------------------------------------------------------------
  // appendQueryStringToURL, appendParamsToURL, decodeQueryString

  /** The text of `s` before its first `?` (all of `s` when it has none). */
  function BeforeMark(s: string): (r: string)
    ensures |r| <= |s| && r == s[..|r|] && '?' !in r
    ensures |r| < |s| ==> s[|r|] == '?'
  {
    if s == [] || s[0] == '?' then [] else [s[0]] + BeforeMark(s[1..])
  }

  /** `url.split('?', 2)`: the text before the first `?` and, when there is a
      `?`, the text between it and the next `?` (or the end). */
  function SplitAtMark(url: string): (r: (string, Option<string>))
    ensures '?' !in r.0
    ensures r.1.None? <==> '?' !in url
    ensures r.1.None? ==> r.0 == url
    ensures r.1.Some? ==> |r.0| + 1 + |r.1.value| <= |url|
    ensures r.1.Some? ==> '?' !in r.1.value && url[..|r.0| + 1 + |r.1.value|] == r.0 + "?" + r.1.value
    ensures r.1.Some? ==> |r.0| + 1 + |r.1.value| == |url| || url[|r.0| + 1 + |r.1.value|] == '?'
  {
    var main := BeforeMark(url);
    if |main| == |url| then
      assert url == main;
      (url, None)
    else
      var rest := url[|main| + 1..];
      var query := BeforeMark(rest);
      assert url == main + "?" + rest;
      assert url[..|main| + 1 + |query|] == main + "?" + query;
      (main, Some(query))
  }

  /** `appendQueryStringToURL(url, qs)`; `None` is `undefined`. */
  function AppendQueryStringToURL(url: string, qs: Option<string>): (r: string)
    ensures qs.None? || qs.value == [] ==> r == url
    ensures qs.Some? && qs.value != [] ==> |r| > |qs.value| && r[|r| - |qs.value|..] == qs.value
  {
    if qs.None? || |qs.value| == 0 then url
    else
      var mainAndQuery := SplitAtMark(url);
      mainAndQuery.0 + if mainAndQuery.1.Some? then "?" + mainAndQuery.1.value + "&" + qs.value else "?" + qs.value
  }

  /** The second argument of `appendParamsToURL`: a plain object or
      anything else (a query string or `undefined`). */
  datatype ParamsArg = Object(p: Params) | Text(qs: Option<string>)

  /** `appendParamsToURL(url, params)`. */
  function AppendParamsToURL(c: Codec, url: string, params: ParamsArg): (r: string)
    ensures params.Text? ==> r == AppendQueryStringToURL(url, params.qs)
    ensures params.Object? && Entries(params.p) == [] ==> r == url
    ensures params.Object? && Entries(params.p) != [] ==>
              r == AppendQueryStringToURL(url, Some(SerializeSpec(c, params.p)))
  {
    AppendQueryStringToURL(url, match params case Object(p) => Some(SerializeSpec(c, p)) case Text(qs) => qs)
  }

  /** `decodeQueryString(qs)`; `None` stands for any value that is not a
      string, for which the result is `undefined`. */
  method DecodeQueryString(c: Codec, qs: Option<string>) returns (r: Option<Params>)
    ensures r.None? <==> qs.None?
    ensures qs.Some? ==> r == Some(ParseSpec(c, qs)) && ParsedShape(r.value)
  {
    if qs.None? {
      return None;
    }
    var params := ParseQueryString(c, qs);
    return Some(params);
  }
}

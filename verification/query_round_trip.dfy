/** Parsing what serializing produces gives the parameter object back,
    provided the codec escapes the characters the query syntax uses and
    decoding undoes encoding, and the object's names are non-empty and free of
    `[]` and its arrays have two or more elements, the first non-empty. */
module QueryRoundTrip {
  import opened Common
  import opened UriComponent
  import opened QueryScan
  import opened QueryString
  import opened QueryProperties

  /** What `encodeURIComponent`/`decodeURIComponent` do for one string: the
      encoding holds none of `&`, `=`, `+`, `#`, `?`, is empty only for the
      empty string, and decodes back. */
  predicate EncodesSafely(c: Codec, x: string)
  {
    var e := c.encode(x);
    '&' !in e && '=' !in e && '+' !in e && '#' !in e && '?' !in e
    && (x != [] ==> e != [])
    && c.decode(e) == Some(x)
  }

  ghost predicate Invertible(c: Codec)
  {
    c.isClient && c.encode([]) == [] && forall x :: EncodesSafely(c, x)
  }

  predicate NoBrackets(s: string)
  {
    forall i: nat :: i < |s| ==> !BracketsAt(s, i)
  }

  /** A name that survives the trip: non-empty (an empty name serializes to
      `=value`, which the pattern skips) and free of `[]`. */
  predicate GoodName(name: string)
  {
    name != [] && NoBrackets(name)
  }

  /** A value that survives the trip: a scalar, or an array of at least two
      elements whose first is non-empty (a one-element array comes back as a
      scalar, and a leading `""` is overwritten). */
  predicate GoodValue(v: ParamValue)
  {
    v.Single? || (v.Multi? && |v.items| >= 2 && v.items[0] != "")
  }

  ghost predicate Canonical(p: Params)
  {
    Valid(p) && forall k :: k in p.values ==> GoodName(k) && GoodValue(p.values[k])
  }

  // ---------------------------------------------------------------------------
  // The wire format: `name=value` parts joined with `&`

  function Render(ws: seq<(string, string)>): (r: seq<string>)
    ensures |r| == |ws|
  {
    if ws == [] then [] else [ws[0].0 + "=" + ws[0].1] + Render(ws[1..])
  }

  function Raws(ws: seq<(string, string)>): seq<RawMatch>
  {
    if ws == [] then [] else [RawMatch(ws[0].0, Some(ws[0].1))] + Raws(ws[1..])
  }

  predicate WireName(n: string)
  {
    n != [] && '=' !in n && '&' !in n
  }

  predicate WireSafe(ws: seq<(string, string)>)
  {
    forall i :: 0 <= i < |ws| ==> WireName(ws[i].0) && '&' !in ws[i].1
  }

  /** A `name=value` part at position `a`, followed by the end or by `&`, is
      one match whose end is the end of the part. */
  lemma PartAt(s: string, a: nat, n: string, v: string, t: string)
    requires a <= |s| && s[a..] == n + "=" + v + t
    requires WireName(n) && '&' !in v && (t == [] || t[0] == '&')
    ensures a < |s| && IsNameChar(s[a])
    ensures MatchTail(s, a) == (a + |n| + 1 + |v|, RawMatch(n, Some(v)))
    ensures s[a + |n| + 1 + |v|..] == t
  {
    var b := a + |n|;
    var e := b + 1 + |v|;
    assert s[a..b] == n && s[b] == '=' && s[b + 1..e] == v && s[e..] == t by {
      assert s[a..][..|n|] == n;
      assert s[a..][|n|] == '=';
      assert s[a..][|n| + 1..e - a] == v;
      assert s[a..][e - a..] == t;
    }
    assert e == |s| || s[e] == '&' by {
      if e < |s| {
        assert s[e] == s[e..][0];
      }
    }
    PartBetween(s, a, b, e);
  }

  /** The slice form of `PartAt`: a name run `s[a..b]`, then `=`, then a run
      without `&` up to the end or to `&`. */
  lemma PartBetween(s: string, a: nat, b: nat, e: nat)
    requires a < b < e <= |s| && s[b] == '='
    requires WireName(s[a..b]) && '&' !in s[b + 1..e]
    requires e == |s| || s[e] == '&'
    ensures IsNameChar(s[a])
    ensures MatchTail(s, a) == (e, RawMatch(s[a..b], Some(s[b + 1..e])))
  {
    forall k | a <= k < b ensures IsNameChar(s[k]) {
      assert s[k] == s[a..b][k - a];
    }
    forall k | b + 1 <= k < e ensures s[k] != '&' {
      assert s[k] == s[b + 1..e][k - b - 1];
    }
    MatchTailOfPart(s, a, b, e);
  }

  lemma WireSafeTail(ws: seq<(string, string)>)
    requires WireSafe(ws) && ws != []
    ensures WireName(ws[0].0) && '&' !in ws[0].1 && WireSafe(ws[1..])
  {
    forall i | 0 <= i < |ws[1..]| ensures WireName(ws[1..][i].0) && '&' !in ws[1..][i].1 {
      assert ws[1..][i] == ws[i + 1];
    }
  }

  /** The wire text of non-empty parts starts with the first part; what
      follows it is empty or starts with `&`. */
  lemma RenderHead(ws: seq<(string, string)>)
    requires ws != []
    ensures JoinAmp(Render(ws)) == ws[0].0 + "=" + ws[0].1 + AmpEach(Render(ws[1..]))
    ensures AmpEach(Render(ws)) == "&" + (ws[0].0 + "=" + ws[0].1 + AmpEach(Render(ws[1..])))
    ensures AmpEach(Render(ws[1..])) == [] || AmpEach(Render(ws[1..]))[0] == '&'
  {
    var part := ws[0].0 + "=" + ws[0].1;
    var rest := Render(ws[1..]);
    assert Render(ws) == [part] + rest;
    JoinAmpCons(part, rest);
    AmpEachCons(part, rest);
    AmpEachStartsWithAmp(rest);
  }

  lemma JoinAmpCons(part: string, rest: seq<string>)
    ensures JoinAmp([part] + rest) == part + AmpEach(rest)
  {
    assert ([part] + rest)[1..] == rest;
  }

  lemma AmpEachCons(part: string, rest: seq<string>)
    ensures AmpEach([part] + rest) == "&" + (part + AmpEach(rest))
  {
    assert ([part] + rest)[1..] == rest;
  }

  lemma AmpEachStartsWithAmp(parts: seq<string>)
    ensures AmpEach(parts) == [] || AmpEach(parts)[0] == '&'
  {
    if parts != [] {
      assert AmpEach(parts) == "&" + (parts[0] + AmpEach(parts[1..]));
    }
  }

  /** An `&name=value` part at `q`, followed by the end or by `&`, is what
      `exec` finds from `q`. */
  lemma AmpPart(s: string, q: nat, n: string, v: string, t: string)
    requires 0 < q <= |s| && s[q..] == "&" + (n + "=" + v + t)
    requires WireName(n) && '&' !in v && (t == [] || t[0] == '&')
    ensures q + 1 + |n| + 1 + |v| <= |s|
    ensures Exec(s, q) == Some(Found(q, q + 1 + |n| + 1 + |v|, RawMatch(n, Some(v))))
    ensures s[q + 1 + |n| + 1 + |v|..] == t
  {
    assert s[q] == s[q..][0] == '&';
    assert s[q + 1..] == s[q..][1..] == n + "=" + v + t;
    PartAt(s, q + 1, n, v, t);
    var e := q + 1 + |n| + 1 + |v|;
    assert MatchAt(s, q) == Some((e, RawMatch(n, Some(v))));
  }

  /** A leading `name=value` part whose name does not start with `#` or `?`,
      followed by the end or by `&`, is what `exec` finds from 0. */
  lemma FirstPart(s: string, n: string, v: string, t: string)
    requires s == n + "=" + v + t
    requires WireName(n) && n[0] != '#' && n[0] != '?' && '&' !in v && (t == [] || t[0] == '&')
    ensures |n| + 1 + |v| <= |s|
    ensures Exec(s, 0) == Some(Found(0, |n| + 1 + |v|, RawMatch(n, Some(v))))
    ensures s[|n| + 1 + |v|..] == t
  {
    assert s[0..] == s;
    PartAt(s, 0, n, v, t);
    assert s[0] == n[0];
    assert MatchAt(s, 0) == Some((|n| + 1 + |v|, RawMatch(n, Some(v))));
  }

  /** After the first part, every `&name=value` part is one match. */
  lemma {:induction false} MatchesAfterAmp(s: string, q: nat, ws: seq<(string, string)>)
    requires 0 < q <= |s| && s[q..] == AmpEach(Render(ws)) && WireSafe(ws)
    ensures Matches(s, q) == Raws(ws)
    decreases |ws|
  {
    if ws == [] {
      assert q == |s|;
      assert MatchAt(s, q).None?;
      assert Exec(s, q).None?;
    } else {
      var n, v := ws[0].0, ws[0].1;
      var t := AmpEach(Render(ws[1..]));
      RenderHead(ws);
      WireSafeTail(ws);
      AmpPart(s, q, n, v, t);
      var e := q + 1 + |n| + 1 + |v|;
      MatchesStep(s, q, Found(q, e, RawMatch(n, Some(v))));
      assert Raws(ws) == [RawMatch(n, Some(v))] + Raws(ws[1..]);
      MatchesAfterAmp(s, e, ws[1..]);
    }
  }

  /** The match loop over `name=value` parts joined with `&` returns the
      parts, in order, provided the first name does not start with `#` or `?`. */
  lemma MatchesOfWire(ws: seq<(string, string)>)
    requires WireSafe(ws)
    requires ws != [] ==> ws[0].0[0] != '#' && ws[0].0[0] != '?'
    ensures Matches(JoinAmp(Render(ws)), 0) == Raws(ws)
  {
    var s := JoinAmp(Render(ws));
    if ws != [] {
      var n, v := ws[0].0, ws[0].1;
      var t := AmpEach(Render(ws[1..]));
      RenderHead(ws);
      WireSafeTail(ws);
      FirstPart(s, n, v, t);
      var e := |n| + 1 + |v|;
      MatchesStep(s, 0, Found(0, e, RawMatch(n, Some(v))));
      assert Raws(ws) == [RawMatch(n, Some(v))] + Raws(ws[1..]);
      MatchesAfterAmp(s, e, ws[1..]);
    }
  }

  // ---------------------------------------------------------------------------
  // Encoding and decoding

  function Encoded(c: Codec, ps: seq<(string, string)>): (r: seq<(string, string)>)
    ensures |r| == |ps|
  {
    if ps == [] then [] else [(c.encode(ps[0].0), c.encode(ps[0].1))] + Encoded(c, ps[1..])
  }

  lemma {:induction false} FormatAllIsRender(c: Codec, ps: seq<(string, string)>)
    ensures FormatAll(c, ps) == Render(Encoded(c, ps))
    decreases |ps|
  {
    if ps != [] {
      FormatAllIsRender(c, ps[1..]);
    }
  }

  lemma {:induction false} EncodedIsWireSafe(c: Codec, ps: seq<(string, string)>)
    requires Invertible(c)
    requires forall i :: 0 <= i < |ps| ==> ps[i].0 != []
    ensures WireSafe(Encoded(c, ps))
    ensures ps != [] ==> Encoded(c, ps)[0].0[0] != '#' && Encoded(c, ps)[0].0[0] != '?'
    decreases |ps|
  {
    if ps != [] {
      EncodedIsWireSafe(c, ps[1..]);
      assert EncodesSafely(c, ps[0].0) && EncodesSafely(c, ps[0].1);
      var r := Encoded(c, ps);
      assert r[0].0[0] in r[0].0;
      forall i | 0 <= i < |r| ensures WireName(r[i].0) && '&' !in r[i].1 {
        if i > 0 {
          assert r[i] == Encoded(c, ps[1..])[i - 1];
        }
      }
    }
  }

  /** Decoding the matches of encoded pairs gives the pairs back. */
  lemma {:induction false} DecodeEncoded(c: Codec, ps: seq<(string, string)>)
    requires Invertible(c)
    requires forall i :: 0 <= i < |ps| ==> NoBrackets(ps[i].0)
    ensures DecodeAll(c, Raws(Encoded(c, ps))) == ps
    decreases |ps|
  {
    if ps != [] {
      var n, v := ps[0].0, ps[0].1;
      assert EncodesSafely(c, n) && EncodesSafely(c, v);
      RemoveFirstBracketsUnchanged(n);
      assert DecodeMatch(c, RawMatch(c.encode(n), Some(c.encode(v)))) == (n, v);
      assert Raws(Encoded(c, ps))[1..] == Raws(Encoded(c, ps[1..]));
      DecodeEncoded(c, ps[1..]);
    }
  }

  // ---------------------------------------------------------------------------
  // Accumulating the pairs of a canonical object

  lemma {:induction false} AccumulateAppend(p: Params, a: seq<(string, string)>, b: seq<(string, string)>)
    ensures Accumulate(p, a + b) == Accumulate(Accumulate(p, a), b)
    decreases |a|
  {
    if a == [] {
      assert a + b == b;
    } else {
      assert (a + b)[0] == a[0];
      assert (a + b)[1..] == a[1..] + b;
      AccumulateAppend(Step(p, a[0].0, a[0].1), a[1..], b);
    }
  }

  /** The object made of the first `i` keys of `p`. */
  function Prefix(p: Params, i: nat): Params
    requires i <= |p.order|
  {
    Params(p.order[..i], map k | k in p.order[..i] && k in p.values :: p.values[k])
  }

  lemma PrefixStep(p: Params, i: nat)
    requires Canonical(p) && i < |p.order|
    ensures p.order[i] !in Prefix(p, i).values
    ensures Put(Prefix(p, i), p.order[i], p.values[p.order[i]]) == Prefix(p, i + 1)
  {
    var k := p.order[i];
    assert forall j :: 0 <= j < i ==> p.order[..i][j] != k;
    assert p.order[..i + 1] == p.order[..i] + [k];
    var lhs := Put(Prefix(p, i), k, p.values[k]);
    assert lhs.values == Prefix(p, i + 1).values;
  }

  /** The pairs of one canonical value, accumulated into an object that does
      not yet have the name, give the value back. */
  lemma AccumulateOneKey(d: Params, k: string, v: ParamValue)
    requires k !in d.values && GoodValue(v)
    ensures Accumulate(d, ParamPairs(k, v)) == Put(d, k, v)
  {
    match v
    case Single(x) =>
    case Multi(xs) => RepeatedNameCollects(d, k, xs);
  }

  lemma {:induction false} AccumulatePrefix(p: Params, i: nat)
    requires Canonical(p) && i <= |p.order|
    ensures Accumulate(Empty, PairsOf(p, p.order[..i])) == Prefix(p, i)
    decreases i
  {
    if i == 0 {
      assert Prefix(p, 0).values == map[];
    } else {
      var k := p.order[i - 1];
      assert p.order[..i][..i - 1] == p.order[..i - 1];
      assert PairsOf(p, p.order[..i]) == PairsOf(p, p.order[..i - 1]) + ParamPairs(k, Get(p, k));
      AccumulatePrefix(p, i - 1);
      AccumulateAppend(Empty, PairsOf(p, p.order[..i - 1]), ParamPairs(k, Get(p, k)));
      PrefixStep(p, i - 1);
      AccumulateOneKey(Prefix(p, i - 1), k, p.values[k]);
    }
  }

  /** Accumulating every pair a canonical object emits rebuilds the object. */
  lemma AccumulateEntries(p: Params)
    requires Canonical(p)
    ensures Accumulate(Empty, Entries(p)) == p
  {
    AccumulatePrefix(p, |p.order|);
    assert p.order[..|p.order|] == p.order;
    assert Prefix(p, |p.order|).values == p.values;
  }

  lemma {:induction false} PairNamesAreKeys(p: Params, keys: seq<string>)
    ensures forall e :: e in PairsOf(p, keys) ==> e.0 in keys
    decreases |keys|
  {
    if keys != [] {
      var init := keys[..|keys| - 1];
      var last := keys[|keys| - 1];
      PairNamesAreKeys(p, init);
      NamedParam(last, Get(p, last), last);
      forall e | e in ParamPairs(last, Get(p, last)) ensures e.0 == last {
        NamedParam(last, Get(p, last), last);
      }
      forall e | e in PairsOf(p, keys) ensures e.0 in keys {
        if e in PairsOf(p, init) {
          var j :| 0 <= j < |init| && init[j] == e.0;
          assert keys[j] == e.0;
        }
      }
    }
  }

  // ---------------------------------------------------------------------------
  // The round trip

  /** For any object whose keys are good names, parsing its serialization
      gives what accumulating its pairs gives. */
  lemma ParseInvertsSerialize(c: Codec, p: Params)
    requires Invertible(c)
    requires forall k :: k in p.order ==> GoodName(k)
    ensures ParseSpec(c, Some(SerializeSpec(c, p))) == Accumulate(Empty, Entries(p))
  {
    var ps := Entries(p);
    PairNamesAreKeys(p, p.order);
    assert forall i :: 0 <= i < |ps| ==> GoodName(ps[i].0) by {
      forall i | 0 <= i < |ps| ensures GoodName(ps[i].0) {
        assert ps[i] in ps;
      }
    }
    FormatAllIsRender(c, ps);
    EncodedIsWireSafe(c, ps);
    MatchesOfWire(Encoded(c, ps));
    DecodeEncoded(c, ps);
  }

  /** `parseQueryString(serializeQueryString(p))` equals `p`, in values and
      key order, for every canonical object. */
  lemma ParseSerializeRoundTrip(c: Codec, p: Params)
    requires Invertible(c) && Canonical(p)
    ensures ParseSpec(c, Some(SerializeSpec(c, p))) == p
  {
    ParseInvertsSerialize(c, p);
    AccumulateEntries(p);
  }

  /** Why names must be non-empty: `{ "": "v" }` serializes to `=v`, which
      parses to an empty object. */
  lemma EmptyNameIsLost(c: Codec, v: string)
    requires Invertible(c)
    ensures ParseSpec(c, Some(SerializeSpec(c, Params([""], map["" := Single(v)])))) == Empty
  {
    assert EncodesSafely(c, "") && EncodesSafely(c, v);
    var p := Params([""], map["" := Single(v)]);
    assert p.order[..0] == [];
    assert Entries(p) == [("", v)];
    var s := SerializeSpec(c, p);
    var e := c.encode(v);
    assert c.encode("") == [];
    assert s == "=" + e;
    forall q | 0 <= q <= |s| ensures MatchAt(s, q).None? {
      if q + 1 < |s| {
        assert s[q] == '=' || s[q] in e;
      }
    }
    assert Exec(s, 0) == None;
  }

  /** Why arrays need two elements: `{ a: ["x"] }` comes back as
      `{ a: "x" }`. */
  lemma SingleElementArrayComesBackScalar(c: Codec, name: string, x: string)
    requires Invertible(c) && GoodName(name)
    ensures ParseSpec(c, Some(SerializeSpec(c, Params([name], map[name := Multi([x])]))))
            == Params([name], map[name := Single(x)])
  {
    var p := Params([name], map[name := Multi([x])]);
    ParseInvertsSerialize(c, p);
    assert p.order[..0] == [];
    assert ItemPairs(name, [x]) == [(name, x)];
    assert ParamPairs(name, Get(p, name)) == [(name, x)];
    assert [name][..0] == [];
    assert PairsOf(p, [name]) == PairsOf(p, []) + ParamPairs(name, Get(p, name));
    assert Entries(p) == [(name, x)];
  }
}

/** Properties of parsing, serializing and URL splicing, stated on the
    specification functions the methods are proved against. */
module QueryProperties {
  import opened Common
  import opened UriComponent
  import opened QueryScan
  import opened QueryString

  // ---------------------------------------------------------------------------
  // Accumulating repeated names

  lemma AccumulateItemsStep(p: Params, name: string, zs: seq<string>)
    requires zs != []
    ensures Accumulate(p, ItemPairs(name, zs)) == Accumulate(Step(p, name, zs[0]), ItemPairs(name, zs[1..]))
  {
  }

  lemma PushOntoArray(p: Params, name: string, ys: seq<string>, z: string)
    requires Get(p, name) == Multi(ys)
    ensures Step(p, name, z) == Put(p, name, Multi(ys + [z]))
  {
  }

  lemma PutCurrent(p: Params, name: string)
    requires Get(p, name).Multi?
    ensures Put(p, name, Get(p, name)) == p
  {
  }

  /** Once a name holds an array, every further value for it is pushed, in
      order. */
  lemma {:induction false} AccumulateIntoArray(p: Params, name: string, ys: seq<string>, zs: seq<string>)
    requires Get(p, name) == Multi(ys)
    ensures Accumulate(p, ItemPairs(name, zs)) == Put(p, name, Multi(ys + zs))
    decreases |zs|
  {
    if zs == [] {
      assert ys + zs == ys;
      PutCurrent(p, name);
    } else {
      var q := Put(p, name, Multi(ys + [zs[0]]));
      AccumulateItemsStep(p, name, zs);
      PushOntoArray(p, name, ys, zs[0]);
      AccumulateIntoArray(q, name, ys + [zs[0]], zs[1..]);
      assert ys + [zs[0]] + zs[1..] == ys + zs;
      PutPut(p, name, Multi(ys + [zs[0]]), Multi(ys + zs));
    }
  }

  /** A name that is absent (or holds `""`) and then receives two or more
      values, the first non-empty, ends up holding all of them as an array in
      order of appearance. */
  lemma RepeatedNameCollects(p: Params, name: string, xs: seq<string>)
    requires !Truthy(Get(p, name))
    requires |xs| >= 2 && xs[0] != ""
    ensures Accumulate(p, ItemPairs(name, xs)) == Put(p, name, Multi(xs))
  {
    var p1 := Put(p, name, Single(xs[0]));
    var p2 := Put(p, name, Multi([xs[0], xs[1]]));
    AccumulateItemsStep(p, name, xs);
    assert Step(p, name, xs[0]) == p1;
    AccumulateItemsStep(p1, name, xs[1..]);
    assert Step(p1, name, xs[1]) == p2 by {
      PutPut(p, name, Single(xs[0]), Multi([xs[0], xs[1]]));
    }
    assert xs[1..][1..] == xs[2..];
    AccumulateIntoArray(p2, name, [xs[0], xs[1]], xs[2..]);
    assert [xs[0], xs[1]] + xs[2..] == xs;
    PutPut(p, name, Multi([xs[0], xs[1]]), Multi(xs));
  }

  /** A merge step for another name leaves this name's value alone. */
  lemma StepOther(p: Params, name: string, other: string, value: string)
    requires other != name
    ensures Get(Step(p, other, value), name) == Get(p, name)
  {
  }

  /** A merge step's effect on its own name depends only on the value the
      name held before. */
  lemma StepSameValue(p: Params, q: Params, name: string, value: string)
    requires Get(p, name) == Get(q, name)
    ensures Get(Step(p, name, value), name) == Get(Step(q, name, value), name)
  {
  }

  lemma {:induction false} AccumulateNamedFrom(p: Params, q: Params, name: string, ps: seq<(string, string)>)
    requires Get(p, name) == Get(q, name)
    requires forall e :: e in ps ==> e.0 == name
    ensures Get(Accumulate(p, ps), name) == Get(Accumulate(q, ps), name)
    decreases |ps|
  {
    if ps != [] {
      assert ps[0] in ps;
      StepSameValue(p, q, name, ps[0].1);
      forall e | e in ps[1..] ensures e.0 == name {
        assert e in ps;
      }
      AccumulateNamedFrom(Step(p, name, ps[0].1), Step(q, name, ps[0].1), name, ps[1..]);
    }
  }

  /** Parsing merges each name independently: the value a name ends up with
      is what merging only the pairs carrying that name gives. */
  lemma {:induction false} AccumulateOnlyNamed(p: Params, pairs: seq<(string, string)>, name: string)
    ensures Get(Accumulate(p, pairs), name) == Get(Accumulate(p, Named(pairs, name)), name)
    decreases |pairs|
  {
    if pairs != [] {
      var x := pairs[0];
      var q := Step(p, x.0, x.1);
      AccumulateOnlyNamed(q, pairs[1..], name);
      if x.0 == name {
        assert Named(pairs, name) == [x] + Named(pairs[1..], name);
        assert ([x] + Named(pairs[1..], name))[1..] == Named(pairs[1..], name);
      } else {
        assert Named(pairs, name) == Named(pairs[1..], name);
        StepOther(p, name, x.0, x.1);
        AccumulateNamedFrom(q, p, name, Named(pairs[1..], name));
      }
    }
  }

  /** A name that is absent (or holds `""`) and then occurs two or more
      times, the first value non-empty, ends up holding all its values as an
      array in order of appearance, whatever other names come in between. */
  lemma RepeatedNameCollectsInterleaved(p: Params, pairs: seq<(string, string)>, name: string, xs: seq<string>)
    requires !Truthy(Get(p, name))
    requires |xs| >= 2 && xs[0] != ""
    requires Named(pairs, name) == ItemPairs(name, xs)
    ensures Get(Accumulate(p, pairs), name) == Multi(xs)
  {
    AccumulateOnlyNamed(p, pairs, name);
    RepeatedNameCollects(p, name, xs);
  }

  /** Once a name holds an array, its later values are appended in order,
      whatever other names come in between. */
  lemma AccumulateIntoArrayInterleaved(p: Params, pairs: seq<(string, string)>, name: string, ys: seq<string>, zs: seq<string>)
    requires Get(p, name) == Multi(ys)
    requires Named(pairs, name) == ItemPairs(name, zs)
    ensures Get(Accumulate(p, pairs), name) == Multi(ys + zs)
  {
    AccumulateOnlyNamed(p, pairs, name);
    AccumulateIntoArray(p, name, ys, zs);
  }

  /** The pairs of `a=1&b=2&a=3`: `a` collects `["1", "3"]` and `b` is `"2"`. */
  lemma InterleavedExample()
    ensures Get(Accumulate(Empty, [("a", "1"), ("b", "2"), ("a", "3")]), "a") == Multi(["1", "3"])
    ensures Get(Accumulate(Empty, [("a", "1"), ("b", "2"), ("a", "3")]), "b") == Single("2")
  {
    var pairs := [("a", "1"), ("b", "2"), ("a", "3")];
    assert Named(pairs, "a") == ItemPairs("a", ["1", "3"]) by {
      assert pairs[1..] == [("b", "2"), ("a", "3")];
      assert pairs[1..][1..] == [("a", "3")];
      assert Named([("a", "3")], "a") == [("a", "3")];
    }
    RepeatedNameCollectsInterleaved(Empty, pairs, "a", ["1", "3"]);
    assert Named(pairs, "b") == [("b", "2")] by {
      assert pairs[1..] == [("b", "2"), ("a", "3")];
      assert pairs[1..][1..] == [("a", "3")];
      assert Named([("a", "3")], "b") == [];
    }
    AccumulateOnlyNamed(Empty, pairs, "b");
    assert Accumulate(Empty, [("b", "2")]) == Step(Empty, "b", "2");
  }

  /** The truthiness test: a stored `""` is overwritten, not accumulated. */
  lemma EmptyValueIsOverwritten(p: Params, name: string, value: string)
    requires Get(p, name) == Single("")
    ensures Get(Step(p, name, value), name) == Single(value)
  {
  }

  /** `a&a=1` parses to `{ a: "1" }` (outside a browser, where nothing is
      decoded). */
  lemma EmptyThenValueExample(c: Codec)
    requires !c.isClient
    ensures ParseSpec(c, Some("a&a=1")) == Params(["a"], map["a" := Single("1")])
  {
    var s := "a&a=1";
    assert NameEnd(s, 0) == 1;
    assert s[0..1] == "a";
    assert MatchAt(s, 0) == Some((1, RawMatch("a", None)));
    assert NameEnd(s, 2) == 3;
    assert ValueEnd(s, 4) == 5;
    assert s[2..3] == "a" && s[4..5] == "1";
    assert MatchAt(s, 1) == Some((5, RawMatch("a", Some("1"))));
    assert Exec(s, 5) == None;
    assert Matches(s, 0) == [RawMatch("a", None), RawMatch("a", Some("1"))];
    assert RemoveFirstBrackets("a") == "a";
    assert DecodeAll(c, Matches(s, 0)) == [("a", ""), ("a", "1")];
    var p1 := Step(Empty, "a", "");
    assert p1 == Params(["a"], map["a" := Single("")]);
    var p2 := Step(p1, "a", "1");
    assert p2 == Params(["a"], map["a" := Single("1")]);
    assert Accumulate(p1, [("a", "1")]) == Accumulate(p2, []);
    assert Accumulate(Empty, [("a", ""), ("a", "1")]) == Accumulate(p1, [("a", "1")]);
  }

  /** A query string with a repeated name and a leading `?`. */
  const ExampleQuery := "?a=1&a=2&b=x"

  lemma ExampleFirstMatch()
    ensures Exec(ExampleQuery, 0) == Some(Found(0, 4, RawMatch("a", Some("1"))))
  {
    ExecPart(ExampleQuery, 0, 2, 4);
    assert ExampleQuery[1..2] == "a" && ExampleQuery[3..4] == "1";
  }

  lemma ExampleSecondMatch()
    ensures Exec(ExampleQuery, 4) == Some(Found(4, 8, RawMatch("a", Some("2"))))
  {
    ExecPart(ExampleQuery, 4, 6, 8);
    assert ExampleQuery[5..6] == "a" && ExampleQuery[7..8] == "2";
  }

  lemma ExampleThirdMatch()
    ensures Exec(ExampleQuery, 8) == Some(Found(8, 12, RawMatch("b", Some("x"))))
  {
    ExecPart(ExampleQuery, 8, 10, 12);
    assert ExampleQuery[9..10] == "b" && ExampleQuery[11..12] == "x";
  }

  lemma ExampleMatches()
    ensures Matches(ExampleQuery, 0) == [RawMatch("a", Some("1")), RawMatch("a", Some("2")), RawMatch("b", Some("x"))]
  {
    ExampleFirstMatch();
    ExampleSecondMatch();
    ExampleThirdMatch();
    assert Exec(ExampleQuery, 12) == None;
    MatchesStep(ExampleQuery, 0, Found(0, 4, RawMatch("a", Some("1"))));
    MatchesStep(ExampleQuery, 4, Found(4, 8, RawMatch("a", Some("2"))));
    MatchesStep(ExampleQuery, 8, Found(8, 12, RawMatch("b", Some("x"))));
  }

  lemma ExampleDecoded(c: Codec)
    requires !c.isClient
    ensures DecodeAll(c, [RawMatch("a", Some("1")), RawMatch("a", Some("2")), RawMatch("b", Some("x"))])
            == [("a", "1"), ("a", "2"), ("b", "x")]
  {
    assert RemoveFirstBrackets("a") == "a" && RemoveFirstBrackets("b") == "b";
    assert DecodeMatch(c, RawMatch("a", Some("1"))) == ("a", "1");
    assert DecodeMatch(c, RawMatch("a", Some("2"))) == ("a", "2");
    assert DecodeMatch(c, RawMatch("b", Some("x"))) == ("b", "x");
    assert DecodeAll(c, [RawMatch("b", Some("x"))]) == [("b", "x")];
    assert DecodeAll(c, [RawMatch("a", Some("2")), RawMatch("b", Some("x"))]) == [("a", "2"), ("b", "x")];
  }

  lemma ExampleAccumulated()
    ensures Accumulate(Empty, [("a", "1"), ("a", "2"), ("b", "x")])
            == Params(["a", "b"], map["a" := Multi(["1", "2"]), "b" := Single("x")])
  {
    var p1 := Step(Empty, "a", "1");
    assert p1 == Params(["a"], map["a" := Single("1")]);
    var p2 := Step(p1, "a", "2");
    assert p2 == Params(["a"], map["a" := Multi(["1", "2"])]);
    var p3 := Step(p2, "b", "x");
    assert p3 == Params(["a", "b"], map["a" := Multi(["1", "2"]), "b" := Single("x")]);
    assert Accumulate(p2, [("b", "x")]) == p3;
    assert Accumulate(p1, [("a", "2"), ("b", "x")]) == Accumulate(p2, [("b", "x")]);
    assert Accumulate(Empty, [("a", "1"), ("a", "2"), ("b", "x")]) == Accumulate(p1, [("a", "2"), ("b", "x")]);
  }

  /** `?a=1&a=2&b=x` parses to `{ a: ["1", "2"], b: "x" }` (outside a
      browser, where nothing is decoded). */
  lemma ParseExample(c: Codec)
    requires !c.isClient
    ensures ParseSpec(c, Some(ExampleQuery)) == Params(["a", "b"], map["a" := Multi(["1", "2"]), "b" := Single("x")])
  {
    ExampleMatches();
    ExampleDecoded(c);
    ExampleAccumulated();
  }

  /** A query string where another name comes between two occurrences of `a`. */
  const InterleavedQuery := "a=1&b=2&a=3"

  lemma InterleavedFirstMatch()
    ensures Exec(InterleavedQuery, 0) == Some(Found(0, 3, RawMatch("a", Some("1"))))
  {
    MatchTailOfPart(InterleavedQuery, 0, 1, 3);
    assert InterleavedQuery[0..1] == "a" && InterleavedQuery[2..3] == "1";
  }

  lemma InterleavedSecondMatch()
    ensures Exec(InterleavedQuery, 3) == Some(Found(3, 7, RawMatch("b", Some("2"))))
  {
    ExecPart(InterleavedQuery, 3, 5, 7);
    assert InterleavedQuery[4..5] == "b" && InterleavedQuery[6..7] == "2";
  }

  lemma InterleavedThirdMatch()
    ensures Exec(InterleavedQuery, 7) == Some(Found(7, 11, RawMatch("a", Some("3"))))
  {
    ExecPart(InterleavedQuery, 7, 9, 11);
    assert InterleavedQuery[8..9] == "a" && InterleavedQuery[10..11] == "3";
  }

  lemma InterleavedMatches()
    ensures Matches(InterleavedQuery, 0) == [RawMatch("a", Some("1")), RawMatch("b", Some("2")), RawMatch("a", Some("3"))]
  {
    InterleavedFirstMatch();
    InterleavedSecondMatch();
    InterleavedThirdMatch();
    assert Exec(InterleavedQuery, 11) == None;
    MatchesStep(InterleavedQuery, 0, Found(0, 3, RawMatch("a", Some("1"))));
    MatchesStep(InterleavedQuery, 3, Found(3, 7, RawMatch("b", Some("2"))));
    MatchesStep(InterleavedQuery, 7, Found(7, 11, RawMatch("a", Some("3"))));
  }

  lemma InterleavedDecoded(c: Codec)
    requires !c.isClient
    ensures DecodeAll(c, [RawMatch("a", Some("1")), RawMatch("b", Some("2")), RawMatch("a", Some("3"))])
            == [("a", "1"), ("b", "2"), ("a", "3")]
  {
    assert RemoveFirstBrackets("a") == "a" && RemoveFirstBrackets("b") == "b";
    assert DecodeAll(c, [RawMatch("a", Some("3"))]) == [("a", "3")];
    assert DecodeAll(c, [RawMatch("b", Some("2")), RawMatch("a", Some("3"))]) == [("b", "2"), ("a", "3")];
  }

  /** `a=1&b=2&a=3` parses to `{ a: ["1", "3"], b: "2" }` (outside a
      browser, where nothing is decoded). */
  lemma InterleavedParse(c: Codec)
    requires !c.isClient
    ensures Get(ParseSpec(c, Some(InterleavedQuery)), "a") == Multi(["1", "3"])
    ensures Get(ParseSpec(c, Some(InterleavedQuery)), "b") == Single("2")
  {
    InterleavedMatches();
    InterleavedDecoded(c);
    InterleavedExample();
  }

  // ---------------------------------------------------------------------------
  // Serializing

  /** The pairs of a list that carry the given name, in order. */
  function Named(ps: seq<(string, string)>, name: string): (r: seq<(string, string)>)
    ensures forall e :: e in r ==> e.0 == name
  {
    if ps == [] then []
    else (if ps[0].0 == name then [ps[0]] else []) + Named(ps[1..], name)
  }

  lemma {:induction false} NamedAppend(a: seq<(string, string)>, b: seq<(string, string)>, name: string)
    ensures Named(a + b, name) == Named(a, name) + Named(b, name)
    decreases |a|
  {
    if a == [] {
      assert a + b == b;
    } else {
      assert (a + b)[1..] == a[1..] + b;
      NamedAppend(a[1..], b, name);
    }
  }

  lemma {:induction false} NamedItems(other: string, xs: seq<string>, name: string)
    ensures Named(ItemPairs(other, xs), name) == if other == name then ItemPairs(other, xs) else []
    decreases |xs|
  {
    if xs != [] {
      assert ItemPairs(other, xs)[1..] == ItemPairs(other, xs[1..]);
      NamedItems(other, xs[1..], name);
    }
  }

  lemma NamedParam(other: string, v: ParamValue, name: string)
    ensures Named(ParamPairs(other, v), name) == if other == name then ParamPairs(other, v) else []
  {
    match v
    case Nullish =>
    case Single(s) =>
    case Multi(xs) => NamedItems(other, xs, name);
  }

  lemma {:induction false} NamedPairsOf(p: Params, keys: seq<string>, name: string)
    requires Distinct(keys)
    ensures Named(PairsOf(p, keys), name) == if name in keys then ParamPairs(name, Get(p, name)) else []
    decreases |keys|
  {
    if keys != [] {
      var init := keys[..|keys| - 1];
      var last := keys[|keys| - 1];
      assert keys == init + [last];
      NamedPairsOf(p, init, name);
      NamedAppend(PairsOf(p, init), ParamPairs(last, Get(p, last)), name);
      NamedParam(last, Get(p, last), name);
      if name == last {
        assert name !in init;
      }
    }
  }

  /** What serializing emits for one key: nothing for `null`/`undefined`, one
      pair for a scalar, one pair per element, in array order, for an array. */
  lemma EntriesForKey(p: Params, name: string)
    requires Valid(p)
    ensures Named(Entries(p), name) == ParamPairs(name, Get(p, name))
    ensures Get(p, name).Nullish? ==> Named(Entries(p), name) == []
    ensures Get(p, name).Multi? ==>
              |Named(Entries(p), name)| == |Get(p, name).items|
              && forall i :: 0 <= i < |Get(p, name).items| ==> Named(Entries(p), name)[i] == (name, Get(p, name).items[i])
  {
    NamedPairsOf(p, p.order, name);
  }

  /** An object with no keys serializes to `""`: pairs are joined with `&`
      and no `?` is added. */
  lemma SerializeEmpty(c: Codec)
    ensures SerializeSpec(c, Empty) == ""
  {
  }

  /** `serializeQueryString({ a: ["1", "2"], b: "x" })` is `a=1&a=2&b=x` when
      the encoder leaves these characters alone. */
  lemma SerializeExample(c: Codec)
    requires c.encode("a") == "a" && c.encode("b") == "b"
    requires c.encode("1") == "1" && c.encode("2") == "2" && c.encode("x") == "x"
    ensures SerializeSpec(c, Params(["a", "b"], map["a" := Multi(["1", "2"]), "b" := Single("x")])) == "a=1&a=2&b=x"
  {
    ExampleEntries();
    ExampleFormatted(c);
    ExampleJoined();
  }

  lemma ExampleFormatted(c: Codec)
    requires c.encode("a") == "a" && c.encode("b") == "b"
    requires c.encode("1") == "1" && c.encode("2") == "2" && c.encode("x") == "x"
    ensures FormatAll(c, [("a", "1"), ("a", "2"), ("b", "x")]) == ["a=1", "a=2", "b=x"]
  {
    assert FormatPair(c, "a", "1") == "a=1";
    assert FormatPair(c, "a", "2") == "a=2";
    assert FormatPair(c, "b", "x") == "b=x";
    assert FormatAll(c, [("b", "x")]) == ["b=x"];
    assert FormatAll(c, [("a", "2"), ("b", "x")]) == ["a=2", "b=x"];
  }

  lemma ExampleJoined()
    ensures JoinAmp(["a=1", "a=2", "b=x"]) == "a=1&a=2&b=x"
  {
    assert JoinAmp(["a=1", "a=2", "b=x"]) == "a=1" + ("&" + "a=2" + ("&" + "b=x" + ""));
  }

  lemma ExampleEntries()
    ensures Entries(Params(["a", "b"], map["a" := Multi(["1", "2"]), "b" := Single("x")]))
            == [("a", "1"), ("a", "2"), ("b", "x")]
  {
    var p := Params(["a", "b"], map["a" := Multi(["1", "2"]), "b" := Single("x")]);
    assert p.order[..1] == ["a"];
    assert PairsOf(p, ["a"]) == [("a", "1"), ("a", "2")];
  }

  // ---------------------------------------------------------------------------
  // Splicing a query string onto a URL

  lemma {:induction false} BeforeMarkOf(a: string, b: string)
    requires '?' !in a
    ensures BeforeMark(a + "?" + b) == a
    decreases |a|
  {
    if a != [] {
      assert (a + "?" + b)[1..] == a[1..] + "?" + b;
      BeforeMarkOf(a[1..], b);
    }
  }

  lemma {:induction false} BeforeMarkNone(s: string)
    requires '?' !in s
    ensures BeforeMark(s) == s
    decreases |s|
  {
    if s != [] {
      BeforeMarkNone(s[1..]);
    }
  }

  lemma SplitAtFirstMark(main: string, rest: string)
    requires '?' !in main
    ensures SplitAtMark(main + "?" + rest) == (main, Some(BeforeMark(rest)))
  {
    var url := main + "?" + rest;
    BeforeMarkOf(main, rest);
    assert url[|main| + 1..] == rest;
  }

  lemma AppendOfSplit(url: string, main: string, query: string, qs: string)
    requires SplitAtMark(url) == (main, Some(query)) && qs != []
    ensures AppendQueryStringToURL(url, Some(qs)) == main + "?" + query + "&" + qs
  {
    assert AppendQueryStringToURL(url, Some(qs)) == main + ("?" + query + "&" + qs);
  }

  /** A URL without `?` gets `?` and the query string. */
  lemma AppendWithoutMark(url: string, qs: string)
    requires '?' !in url && qs != []
    ensures AppendQueryStringToURL(url, Some(qs)) == url + "?" + qs
  {
  }

  /** A URL with one `?` gets `&` and the query string. */
  lemma AppendAfterQuery(main: string, query: string, qs: string)
    requires '?' !in main && '?' !in query && qs != []
    ensures AppendQueryStringToURL(main + "?" + query, Some(qs)) == main + "?" + query + "&" + qs
  {
    SplitAtFirstMark(main, query);
    BeforeMarkNone(query);
    AppendOfSplit(main + "?" + query, main, query, qs);
  }

  /** `split('?', 2)` drops everything from a second `?` on. */
  lemma AppendDropsAfterSecondMark(main: string, query: string, tail: string, qs: string)
    requires '?' !in main && '?' !in query && qs != []
    ensures AppendQueryStringToURL(main + "?" + query + "?" + tail, Some(qs)) == main + "?" + query + "&" + qs
  {
    var url := main + "?" + query + "?" + tail;
    assert url == main + "?" + (query + "?" + tail);
    SplitAtFirstMark(main, query + "?" + tail);
    BeforeMarkOf(query, tail);
    AppendOfSplit(url, main, query, qs);
  }

  /** `appendParamsToURL("http://x/y?z=1", "w=2")` is `http://x/y?z=1&w=2`. */
  lemma AppendExample(c: Codec)
    ensures AppendParamsToURL(c, "http://x/y?z=1", Text(Some("w=2"))) == "http://x/y?z=1&w=2"
  {
    var main, query := "http://x/y", "z=1";
    assert main + "?" + query == "http://x/y?z=1";
    assert main + "?" + query + "&" + "w=2" == "http://x/y?z=1&w=2";
    AppendAfterQuery(main, query, "w=2");
  }
}

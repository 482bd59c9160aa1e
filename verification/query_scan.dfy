/** The scan `parseQueryString` performs with its global regular expression
    `(?:^[#?]?|&)([^=&]+)(?:=([^&]*))?`: where a match may start, what it
    captures, and the sequence of matches repeated `exec` calls return. */
module QueryScan {
  import opened Common

  /** A character the name group `[^=&]` accepts. */
  predicate IsNameChar(ch: char) { ch != '=' && ch != '&' }

  /** What one match captures: group 1 (the name) and group 2 (the value),
      which is undefined when no `=` follows the name. */
  datatype RawMatch = RawMatch(name: string, value: Option<string>)

  /** A match found by `exec`: where it starts, where it ends (the next
      `lastIndex`) and its captures. */
  datatype Found = Found(start: nat, end: nat, m: RawMatch)

  /** The end of the longest run of name characters from `i`. */
  function NameEnd(s: string, i: nat): (j: nat)
    requires i <= |s|
    ensures i <= j <= |s|
    ensures forall k :: i <= k < j ==> IsNameChar(s[k])
    ensures j == |s| || !IsNameChar(s[j])
    decreases |s| - i
  {
    if i == |s| || !IsNameChar(s[i]) then i else NameEnd(s, i + 1)
  }

  /** The end of the longest run of characters other than `&` from `i`. */
  function ValueEnd(s: string, i: nat): (j: nat)
    requires i <= |s|
    ensures i <= j <= |s|
    ensures forall k :: i <= k < j ==> s[k] != '&'
    ensures j == |s| || s[j] == '&'
    decreases |s| - i
  {
    if i == |s| || s[i] == '&' then i else ValueEnd(s, i + 1)
  }

  /** The part of the pattern after the prefix, `([^=&]+)(?:=([^&]*))?`, from
      position `a`. Both quantifiers are greedy and nothing follows the
      optional group, so the name is the longest run of name characters and
      the value, present exactly when `=` follows, the longest run without `&`. */
  function MatchTail(s: string, a: nat): (r: (nat, RawMatch))
    requires a < |s| && IsNameChar(s[a])
    ensures a < r.0 <= |s|
    ensures r.1.name == s[a..NameEnd(s, a)]
    ensures r.1.value.Some? <==> NameEnd(s, a) < |s| && s[NameEnd(s, a)] == '='
    ensures r.1.value.None? ==> r.0 == NameEnd(s, a)
    ensures r.1.value.Some? ==> r.0 == ValueEnd(s, NameEnd(s, a) + 1) && r.1.value.value == s[NameEnd(s, a) + 1..r.0]
    ensures r.1.name != [] && forall ch :: ch in r.1.name ==> IsNameChar(ch)
    ensures r.1.value.Some? ==> '&' !in r.1.value.value
  {
    var b := NameEnd(s, a);
    assert forall k :: 0 <= k < b - a ==> s[a..b][k] == s[a + k];
    if b < |s| && s[b] == '=' then
      var c := b + 1;
      var e := ValueEnd(s, c);
      assert forall k :: 0 <= k < e - c ==> s[c..e][k] == s[c + k];
      (e, RawMatch(s[a..b], Some(s[b + 1..e])))
    else
      (b, RawMatch(s[a..b], None))
  }

  /** One attempt of the whole pattern at position `p`, returning the end of
      the match and its captures. Without the multiline flag `^` holds only at
      position 0, where `[#?]?` first tries to consume a `#` or `?` and, if no
      name follows it, backtracks so that the mark itself starts the name. */
  function MatchAt(s: string, p: nat): (r: Option<(nat, RawMatch)>)
    requires p <= |s|
    ensures r.Some? <==>
              (p == 0 && 0 < |s| && IsNameChar(s[0]))
              || (p + 1 < |s| && s[p] == '&' && IsNameChar(s[p + 1]))
    ensures r.Some? ==> p < r.value.0 <= |s|
  {
    if p == 0 && 2 <= |s| && (s[0] == '#' || s[0] == '?') && IsNameChar(s[1]) then
      Some(MatchTail(s, 1))
    else if p == 0 && 0 < |s| && IsNameChar(s[0]) then
      Some(MatchTail(s, 0))
    else if p + 1 < |s| && s[p] == '&' && IsNameChar(s[p + 1]) then
      Some(MatchTail(s, p + 1))
    else
      None
  }

  /** `exec` with `lastIndex == from`: the leftmost match starting at or
      after `from`. */
  function Exec(s: string, from: nat): (r: Option<Found>)
    requires from <= |s|
    ensures r.Some? ==> from <= r.value.start < r.value.end <= |s|
    ensures r.Some? ==> MatchAt(s, r.value.start) == Some((r.value.end, r.value.m))
    ensures r.Some? ==> forall q :: from <= q < r.value.start ==> MatchAt(s, q).None?
    ensures r.None? ==> forall q :: from <= q <= |s| ==> MatchAt(s, q).None?
    decreases |s| - from
  {
    match MatchAt(s, from)
    case Some((end, m)) => Some(Found(from, end, m))
    case None => if from == |s| then None else Exec(s, from + 1)
  }

  /** The captures of every match the loop `while (match = re.exec(qs))`
      sees when it starts with `lastIndex == from`. */
  function Matches(s: string, from: nat): (r: seq<RawMatch>)
    requires from <= |s|
    ensures Exec(s, from).None? <==> r == []
    ensures r != [] ==> r[0] == Exec(s, from).value.m
    ensures |r| <= |s| - from
    decreases |s| - from
  {
    match Exec(s, from)
    case None => []
    case Some(f) => [f.m] + Matches(s, f.end)
  }

  /** A run of name characters ending before a non-name character is what
      `NameEnd` finds. */
  lemma {:induction false} NameEndOfRun(s: string, i: nat, j: nat)
    requires i <= j <= |s|
    requires forall k :: i <= k < j ==> IsNameChar(s[k])
    requires j == |s| || !IsNameChar(s[j])
    ensures NameEnd(s, i) == j
    decreases j - i
  {
    if i < j {
      NameEndOfRun(s, i + 1, j);
    }
  }

  /** A run without `&` ending at the end or before `&` is what `ValueEnd`
      finds. */
  lemma {:induction false} ValueEndOfRun(s: string, i: nat, j: nat)
    requires i <= j <= |s|
    requires forall k :: i <= k < j ==> s[k] != '&'
    requires j == |s| || s[j] == '&'
    ensures ValueEnd(s, i) == j
    decreases j - i
  {
    if i < j {
      ValueEndOfRun(s, i + 1, j);
    }
  }

  /** A run of name characters `s[a..b]`, then `=`, then a run without `&`
      up to the end or to `&`: the tail of the pattern captures exactly the
      two runs. */
  lemma MatchTailOfPart(s: string, a: nat, b: nat, e: nat)
    requires a < b < e <= |s| && s[b] == '='
    requires forall k :: a <= k < b ==> IsNameChar(s[k])
    requires forall k :: b + 1 <= k < e ==> s[k] != '&'
    requires e == |s| || s[e] == '&'
    ensures MatchTail(s, a) == (e, RawMatch(s[a..b], Some(s[b + 1..e])))
  {
    NameEndOfRun(s, a, b);
    ValueEndOfRun(s, b + 1, e);
  }

  /** A part introduced by a separator at `p` (a leading `#` or `?`, or an
      `&`) is what `exec` finds from `p`. */
  lemma ExecPart(s: string, p: nat, b: nat, e: nat)
    requires p + 1 < b < e <= |s| && s[b] == '='
    requires (p == 0 && (s[0] == '#' || s[0] == '?')) || s[p] == '&'
    requires forall k :: p + 1 <= k < b ==> IsNameChar(s[k])
    requires forall k :: b + 1 <= k < e ==> s[k] != '&'
    requires e == |s| || s[e] == '&'
    ensures Exec(s, p) == Some(Found(p, e, RawMatch(s[p + 1..b], Some(s[b + 1..e]))))
  {
    MatchTailOfPart(s, p + 1, b, e);
  }

  /** One turn of the match loop. */
  lemma MatchesStep(s: string, q: nat, f: Found)
    requires q <= |s| && Exec(s, q) == Some(f)
    ensures f.end <= |s| && Matches(s, q) == [f.m] + Matches(s, f.end)
  {
  }

  /** Every match has a non-empty name free of `=` and `&`, and a value, when
      present, free of `&`. */
  lemma {:induction false} MatchesShape(s: string, from: nat)
    requires from <= |s|
    ensures forall m :: m in Matches(s, from) ==>
              m.name != [] && (forall ch :: ch in m.name ==> IsNameChar(ch))
              && (m.value.Some? ==> '&' !in m.value.value)
    decreases |s| - from
  {
    match Exec(s, from)
    case None =>
    case Some(f) =>
      MatchesShape(s, f.end);
  }

  /** A leading `#` or `?` followed by a name character is consumed: the
      first name starts after it. */
  lemma LeadingMarkConsumed(s: string)
    requires 2 <= |s| && (s[0] == '#' || s[0] == '?') && IsNameChar(s[1])
    ensures Matches(s, 0) != [] && Matches(s, 0)[0].name == s[1..NameEnd(s, 1)]
  {
  }

  /** A mark that no name follows is not consumed: `?=x` yields the name `?`. */
  lemma LoneMarkIsAName()
    ensures Matches("?=x", 0) == [RawMatch("?", Some("x"))]
  {
    var s := "?=x";
    assert NameEnd(s, 0) == 1;
    assert ValueEnd(s, 2) == 3;
    assert s[0..1] == "?" && s[2..3] == "x";
    assert MatchAt(s, 0) == Some((3, RawMatch("?", Some("x"))));
    assert Exec(s, 3) == None;
  }

  /** Text before the first `&` that starts with `=` is skipped: `=x&a=1`
      yields only the pair after the `&`. */
  lemma LeadingEqualsSkipped()
    ensures Matches("=x&a=1", 0) == [RawMatch("a", Some("1"))]
  {
    var s := "=x&a=1";
    assert MatchAt(s, 0).None? && MatchAt(s, 1).None?;
    assert NameEnd(s, 3) == 4;
    assert ValueEnd(s, 5) == 6;
    assert s[3..4] == "a" && s[5..6] == "1";
    assert MatchAt(s, 2) == Some((6, RawMatch("a", Some("1"))));
    assert Exec(s, 0) == Some(Found(2, 6, RawMatch("a", Some("1"))));
    assert Exec(s, 6) == None;
  }
}

/** String search, `SDPUtils::Split`, and the join it undoes. */
module SdpText {
  import opened Common

  const CRLF: string := "\r\n"

  predicate OccursAt(s: string, d: string, p: int) {
    0 <= p <= |s| - |d| && s[p..p + |d|] == d
  }

  /** `s.find(d, from)`; `None` stands for `npos`. */
  function Find(s: string, d: string, from: nat): (r: Option<nat>)
    requires from <= |s|
    ensures r.Some? ==> from <= r.value <= |s| - |d|
    decreases |s| - from
  {
    if OccursAt(s, d, from) then Some(from)
    else if from == |s| then None
    else Find(s, d, from + 1)
  }

  /** `Find` gives the first occurrence, and `None` only if there is none. */
  lemma {:induction false} FindIsFirst(s: string, d: string, from: nat)
    requires from <= |s|
    ensures var r := Find(s, d, from);
            && (r.Some? ==> OccursAt(s, d, r.value) && forall q | from <= q < r.value :: !OccursAt(s, d, q))
            && (r.None? ==> forall q | from <= q :: !OccursAt(s, d, q))
    decreases |s| - from
  {
    if !OccursAt(s, d, from) && from < |s| {
      FindIsFirst(s, d, from + 1);
    }
  }

  /** The converse: a first occurrence is what `Find` gives. */
  lemma {:induction false} FirstIsFound(s: string, d: string, from: nat, p: nat)
    requires from <= p <= |s| && OccursAt(s, d, p) && forall q | from <= q < p :: !OccursAt(s, d, q)
    ensures Find(s, d, from) == Some(p)
    decreases p - from
  {
    if from < p {
      FirstIsFound(s, d, from + 1, p);
    }
  }

  /** The pieces of `s` from `from` on, between the occurrences of `d` met from left to right. */
  function TokensFrom(s: string, d: string, from: nat): (ts: seq<string>)
    requires d != "" && from <= |s|
    ensures ts != []
    decreases |s| - from
  {
    match Find(s, d, from)
    case None => [s[from..]]
    case Some(p) => [s[from..p]] + TokensFrom(s, d, p + |d|)
  }

  function Tokens(s: string, d: string): (ts: seq<string>)
    requires d != ""
    ensures ts != []
  {
    TokensFrom(s, d, 0)
  }

  function Join(ts: seq<string>, d: string): string
    requires ts != []
  {
    if |ts| == 1 then ts[0] else ts[0] + d + Join(ts[1..], d)
  }

  /** `d` does not occur in `t`. */
  predicate Free(t: string, d: string) {
    forall p | 0 <= p <= |t| :: !OccursAt(t, d, p)
  }

  predicate AllFree(ts: seq<string>, d: string) {
    forall i | 0 <= i < |ts| :: Free(ts[i], d)
  }

  lemma {:induction false} WithoutReturnIsFree(line: string)
    requires '\r' !in line
    ensures Free(line, CRLF)
  {
    forall p | 0 <= p <= |line| ensures !OccursAt(line, CRLF, p) {
      if p + 2 <= |line| {
        assert line[p..p + 2][0] == line[p];
      }
    }
  }

  /** No proper non-empty prefix of `d` is also a suffix of it, so occurrences of `d` cannot overlap. */
  predicate Unbordered(d: string) {
    forall m | 0 < m < |d| :: d[|d| - m..] != d[..m]
  }

  /**
   * `SDPUtils::Split`. The delimiter must not be empty: see `EmptyDelimiterMakesNoProgress`.
   */
  method Split(str: string, delimiter: string) returns (res: seq<string>)
    requires delimiter != ""
    ensures res == Tokens(str, delimiter)
    ensures Join(res, delimiter) == str
    ensures AllFree(res, delimiter)
  {
    var posStart := 0;
    res := [];
    var posEnd := Find(str, delimiter, posStart);
    while posEnd.Some?
      invariant 0 <= posStart <= |str|
      invariant posEnd == Find(str, delimiter, posStart)
      invariant res + TokensFrom(str, delimiter, posStart) == Tokens(str, delimiter)
      decreases |str| - posStart
    {
      var token := str[posStart..posEnd.value];
      OneMoreToken(str, delimiter, posStart, posEnd.value, res);
      posStart := posEnd.value + |delimiter|;
      res := res + [token];
      posEnd := Find(str, delimiter, posStart);
    }
    assert TokensFrom(str, delimiter, posStart) == [str[posStart..]];
    res := res + [str[posStart..]];
    JoinOfTokens(str, delimiter);
    TokensAreFree(str, delimiter, 0);
  }

  /** With an empty delimiter every search succeeds where it starts, so the C++ loop never moves on. */
  lemma {:induction false} EmptyDelimiterMakesNoProgress(str: string, posStart: nat)
    requires posStart <= |str|
    ensures Find(str, "", posStart) == Some(posStart)
  {
    assert str[posStart..posStart] == "";
  }

  lemma {:induction false} JoinCons(t: string, ts: seq<string>, d: string)
    requires ts != []
    ensures Join([t] + ts, d) == t + d + Join(ts, d)
  {
    assert ([t] + ts)[1..] == ts;
  }

  lemma {:induction false} JoinAtDelimiter(s: string, d: string, from: nat, p: nat, ts: seq<string>)
    requires from <= p && OccursAt(s, d, p) && ts != [] && Join(ts, d) == s[p + |d|..]
    ensures Join([s[from..p]] + ts, d) == s[from..]
  {
    JoinCons(s[from..p], ts, d);
    SliceInThree(s, from, p, p + |d|);
  }

  lemma {:induction false} JoinFrom(s: string, d: string, from: nat)
    requires d != "" && from <= |s|
    ensures Join(TokensFrom(s, d, from), d) == s[from..]
    decreases |s| - from
  {
    FindIsFirst(s, d, from);
    var f := Find(s, d, from);
    if f.Some? {
      JoinFrom(s, d, f.value + |d|);
      TokensHit(s, d, from, f.value);
      JoinAtDelimiter(s, d, from, f.value, TokensFrom(s, d, f.value + |d|));
    }
  }

  lemma {:induction false} JoinOfTokens(s: string, d: string)
    requires d != ""
    ensures Join(Tokens(s, d), d) == s
  {
    JoinFrom(s, d, 0);
    assert s[0..] == s;
  }

  /** A stretch of `s` without occurrences of `d` is free of `d`. */
  lemma {:induction false} StretchFree(s: string, d: string, from: nat, to: nat)
    requires from <= to <= |s| && forall q | from <= q < to :: !OccursAt(s, d, q)
    requires d != ""
    ensures Free(s[from..to], d)
  {
    var t := s[from..to];
    forall p | 0 <= p <= |t| ensures !OccursAt(t, d, p) {
      if p + |d| <= |t| {
        SliceOfSlice(s, from, to, p, p + |d|);
        assert !OccursAt(s, d, from + p);
      }
    }
  }

  lemma {:induction false} TokensAreFree(s: string, d: string, from: nat)
    requires d != "" && from <= |s|
    ensures AllFree(TokensFrom(s, d, from), d)
    decreases |s| - from
  {
    FindIsFirst(s, d, from);
    var f := Find(s, d, from);
    if f.Some? {
      StretchFree(s, d, from, f.value);
      TokensAreFree(s, d, f.value + |d|);
    } else {
      StretchFree(s, d, from, |s|);
      assert s[from..] == s[from..|s|];
    }
  }

  lemma TokensHit(s: string, d: string, k: nat, p: nat)
    requires d != "" && k <= |s| && Find(s, d, k) == Some(p)
    ensures TokensFrom(s, d, k) == [s[k..p]] + TokensFrom(s, d, p + |d|)
  {
  }

  /** The loop's step: one more token in hand leaves the tokens after it. */
  lemma {:induction false} OneMoreToken(s: string, d: string, k: nat, p: nat, tokens: seq<string>)
    requires d != "" && k <= |s| && Find(s, d, k) == Some(p)
    ensures tokens + TokensFrom(s, d, k) == tokens + [s[k..p]] + TokensFrom(s, d, p + |d|)
  {
    TokensHit(s, d, k, p);
    AppendAssociative(tokens, [s[k..p]], TokensFrom(s, d, p + |d|));
  }

  /** A delimiter-free token standing at `k` with a delimiter after it: the delimiter is found exactly there. */
  lemma {:induction false} FirstDelimiter(s: string, k: nat, t: string, d: string)
    requires Unbordered(d) && Free(t, d)
    requires k + |t| + |d| <= |s| && s[k..k + |t|] == t && s[k + |t|..k + |t| + |d|] == d
    ensures Find(s, d, k) == Some(k + |t|)
  {
    forall q | k <= q < k + |t| ensures !OccursAt(s, d, q) {
      var p := q - k;
      if p + |d| <= |t| {
        assert !OccursAt(t, d, p);
        SliceOfSlice(s, k, k + |t|, p, p + |d|);
      } else {
        var m := p + |d| - |t|;
        SliceOfSlice(s, q, q + |d|, |d| - m, |d|);
        SliceOfSlice(s, k + |t|, k + |t| + |d|, 0, m);
        assert d[|d| - m..] != d[..m];
      }
    }
    FirstIsFound(s, d, k, k + |t|);
  }

  /** A delimiter-free token at the end of the text: no delimiter is found. */
  lemma {:induction false} NoDelimiter(s: string, k: nat, t: string, d: string)
    requires k <= |s| && s[k..] == t && Free(t, d) && d != ""
    ensures Find(s, d, k) == None
  {
    FindIsFirst(s, d, k);
    assert s[k..|s|] == t;
    forall q | k <= q <= |s| ensures !OccursAt(s, d, q) {
      assert !OccursAt(t, d, q - k);
      if q + |d| <= |s| {
        SliceOfSlice(s, k, |s|, q - k, q - k + |d|);
      }
    }
  }

  lemma {:induction false} TokensOfJoinAt(s: string, k: nat, ts: seq<string>, d: string)
    requires d != "" && Unbordered(d) && ts != [] && AllFree(ts, d)
    requires k <= |s| && s[k..] == Join(ts, d)
    ensures TokensFrom(s, d, k) == ts
    decreases |ts|
  {
    var t := ts[0];
    if |ts| == 1 {
      NoDelimiter(s, k, t, d);
      assert ts == [t];
    } else {
      var rest, p := ts[1..], k + |t|;
      JoinStands(s, k, t, d, Join(rest, d));
      TokensOfJoinAt(s, p + |d|, rest, d);
      FirstDelimiter(s, k, t, d);
      TokensHit(s, d, k, p);
      assert ts == [t] + rest;
    }
  }

  lemma {:induction false} JoinStands(s: string, k: nat, t: string, d: string, rest: string)
    requires k <= |s| && s[k..] == t + d + rest
    ensures k + |t| + |d| <= |s|
    ensures s[k..k + |t|] == t && s[k + |t|..k + |t| + |d|] == d && s[k + |t| + |d|..] == rest
  {
    var tail := s[k..];
    assert |tail| == |t| + |d| + |rest|;
    assert tail[..|t|] == t && tail[|t|..|t| + |d|] == d && tail[|t| + |d|..] == rest;
  }

  lemma {:induction false} TokensOfJoin(ts: seq<string>, d: string)
    requires d != "" && Unbordered(d) && ts != [] && AllFree(ts, d)
    ensures Tokens(Join(ts, d), d) == ts
  {
    var s := Join(ts, d);
    assert s[0..] == s;
    TokensOfJoinAt(s, 0, ts, d);
  }

  /** A border of length `m` makes the delimiter match too early after the token `d[..|d| - m]`. */
  lemma {:induction false} BorderBreaksTokens(d: string, m: nat)
    requires 0 < m < |d| && d[|d| - m..] == d[..m]
    ensures var ts := [d[..|d| - m], ""];
            AllFree(ts, d) && Tokens(Join(ts, d), d) != ts
  {
    var t := d[..|d| - m];
    var ts := [t, ""];
    var s := Join(ts, d);
    assert ts[1..] == [""] && Join([""], d) == "";
    assert s == t + d + "" == t + d;
    assert s[..|d|] == t + d[..m] == d;
    assert OccursAt(s, d, 0);
    assert Tokens(s, d)[0] == "";
  }

  /** Splitting undoes joining on every list of delimiter-free tokens exactly when the delimiter has no border. */
  lemma {:induction false} SplitInvertsJoinIff(d: string)
    requires d != ""
    ensures (forall ts: seq<string> | ts != [] && AllFree(ts, d) :: Tokens(Join(ts, d), d) == ts) <==> Unbordered(d)
  {
    if Unbordered(d) {
      forall ts: seq<string> | ts != [] && AllFree(ts, d) ensures Tokens(Join(ts, d), d) == ts {
        TokensOfJoin(ts, d);
      }
    } else {
      var m :| 0 < m < |d| && d[|d| - m..] == d[..m];
      BorderBreaksTokens(d, m);
    }
  }

  lemma {:induction false} CrlfUnbordered()
    ensures Unbordered(CRLF)
  {
    forall m | 0 < m < |CRLF| ensures CRLF[|CRLF| - m..] != CRLF[..m] {
      assert CRLF[1..][0] == '\n' && CRLF[..1][0] == '\r';
    }
  }

  /** For CRLF, the delimiter of `ParseSDP`, `Tokens` and `Join` are inverse to each other. */
  lemma {:induction false} CrlfRoundTrip(s: string, ts: seq<string>)
    requires ts != [] && AllFree(ts, CRLF)
    ensures Join(Tokens(s, CRLF), CRLF) == s && AllFree(Tokens(s, CRLF), CRLF)
    ensures Tokens(Join(ts, CRLF), CRLF) == ts
  {
    JoinOfTokens(s, CRLF);
    TokensAreFree(s, CRLF, 0);
    CrlfUnbordered();
    TokensOfJoin(ts, CRLF);
  }

  /** Text without a carriage return in front of a CRLF-free text leaves it CRLF-free. */
  lemma {:induction false} PrefixKeepsCrlfFree(prefix: string, t: string)
    requires '\r' !in prefix && Free(t, CRLF)
    ensures Free(prefix + t, CRLF)
  {
    forall p | 0 <= p <= |prefix + t| ensures !OccursAt(prefix + t, CRLF, p) {
      if OccursAt(prefix + t, CRLF, p) {
        assert (prefix + t)[p..p + 2][0] == '\r';
        assert p >= |prefix|;
        assert (prefix + t)[p..p + 2] == t[p - |prefix|..p - |prefix| + 2];
        assert OccursAt(t, CRLF, p - |prefix|);
      }
    }
  }
}

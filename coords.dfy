/** The coordinate text codec of the store forms. A position is written into
    the draft's `loc` field as the template string `(${lat}, ${lng})`, and read
    back from a stored record with the regular expression
    `/\(([-\d.]+),\s*([-\d.]+)\)/`.

    Positions are kept at the token level: each component is the text
    JavaScript writes for the number, and the model never converts between
    numbers and text (see the README on `parseFloat`). */
module Coords {
  import opened Options
  import opened JsText

  /** A map point `[lat, lng]`, each component as its JavaScript text. */
  datatype LatLng = LatLng(lat: string, lng: string)

  /** The point both forms start from, `[-6.2, 106.816666]`. */
  const Fallback := LatLng("-6.2", "106.816666")

  /** A character of the class `[-\d.]`; without the `u` flag `\d` is ASCII. */
  predicate IsNumChar(c: char) {
    c == '-' || c == '.' || IsDigit(c)
  }

  /** Text that one `[-\d.]+` group can capture in full. */
  predicate IsToken(t: string) {
    |t| > 0 && forall i :: 0 <= i < |t| ==> IsNumChar(t[i])
  }

  predicate AllSpace(s: string, from: nat, to: nat)
    requires from <= to <= |s|
  {
    forall k :: from <= k < to ==> IsSpace(s[k])
  }

  /** Every character of `s[from..to]` is in `[-\d.]`. */
  predicate NumRun(s: string, from: nat, to: nat)
    requires from <= to <= |s|
  {
    forall x :: from <= x < to ==> IsNumChar(s[x])
  }

  /** The `loc` text of a point: `(${lat}, ${lng})`. */
  function Format(p: LatLng): string {
    "(" + p.lat + ", " + p.lng + ")"
  }

  /** The end of the longest run of `[-\d.]` characters starting at `i`. */
  function RunEnd(s: string, i: nat): (j: nat)
    requires i <= |s|
    ensures i <= j <= |s|
    decreases |s| - i
  {
    if i < |s| && IsNumChar(s[i]) then RunEnd(s, i + 1) else i
  }

  /** The run `RunEnd` delimits holds only number characters and cannot be
      extended. */
  lemma {:induction false} RunEndSpec(s: string, i: nat)
    requires i <= |s|
    ensures NumRun(s, i, RunEnd(s, i))
    ensures RunEnd(s, i) == |s| || !IsNumChar(s[RunEnd(s, i)])
    decreases |s| - i
  {
    if i < |s| && IsNumChar(s[i]) {
      RunEndSpec(s, i + 1);
    }
  }

  /** The end of the longest run of white space starting at `i`. */
  function SpaceEnd(s: string, i: nat): (j: nat)
    requires i <= |s|
    ensures i <= j <= |s|
    decreases |s| - i
  {
    if i < |s| && IsSpace(s[i]) then SpaceEnd(s, i + 1) else i
  }

  /** The run `SpaceEnd` delimits is all white space and cannot be
      extended. */
  lemma {:induction false} SpaceEndSpec(s: string, i: nat)
    requires i <= |s|
    ensures AllSpace(s, i, SpaceEnd(s, i))
    ensures SpaceEnd(s, i) == |s| || !IsSpace(s[SpaceEnd(s, i)])
    decreases |s| - i
  {
    if i < |s| && IsSpace(s[i]) {
      SpaceEndSpec(s, i + 1);
    }
  }

  /** The match of the regular expression starting exactly at index `i`.
      Because `,`, `)` and white space are all outside `[-\d.]`, and `[-\d.]`
      holds no white space, each greedy run can only succeed at its longest
      extent, so backtracking never finds a different match. */
  function MatchAt(s: string, i: nat): Option<LatLng>
    requires i <= |s|
  {
    if i < |s| && s[i] == '(' then
      var j := RunEnd(s, i + 1);
      if j > i + 1 && j < |s| && s[j] == ',' then
        var k := SpaceEnd(s, j + 1);
        var m := RunEnd(s, k);
        if m > k && m < |s| && s[m] == ')' then Some(LatLng(s[i + 1..j], s[k..m]))
        else None
      else None
    else None
  }

  /** `s.match(re)` searching from index `i`: the match at the first index
      where one starts. */
  function MatchFrom(s: string, i: nat): Option<LatLng>
    requires i <= |s|
    decreases |s| - i
  {
    if MatchAt(s, i).Some? then MatchAt(s, i)
    else if i == |s| then None
    else MatchFrom(s, i + 1)
  }

  /** `MatchFrom` finds the leftmost match: `None` exactly when no index
      from `i` on starts a match, otherwise the match at the first index
      that starts one, returned as `j`. */
  lemma {:induction false} MatchFromLeftmost(s: string, i: nat) returns (j: nat)
    requires i <= |s|
    ensures MatchFrom(s, i).None? <==> forall x :: i <= x <= |s| ==> MatchAt(s, x).None?
    ensures MatchFrom(s, i).Some? ==>
              i <= j <= |s| && MatchAt(s, j) == MatchFrom(s, i)
              && forall x :: i <= x < j ==> MatchAt(s, x).None?
    decreases |s| - i
  {
    if MatchAt(s, i).Some? {
      j := i;
    } else if i == |s| {
      j := i;
    } else {
      j := MatchFromLeftmost(s, i + 1);
    }
  }

  /** The captured pair of `loc.match(/\(([-\d.]+),\s*([-\d.]+)\)/)`, or
      `None` when the text holds no match. */
  function Parse(s: string): Option<LatLng> {
    MatchFrom(s, 0)
  }

  /** `s` holds the pattern at `i`: `(` at `i`, a non-empty run of number
      characters up to the comma at `j`, white space up to `k`, a non-empty
      run of number characters up to the `)` at `m`. */
  predicate Shape(s: string, i: nat, j: nat, k: nat, m: nat) {
    i + 1 < j < k < m < |s|
    && s[i] == '(' && NumRun(s, i + 1, j) && s[j] == ','
    && AllSpace(s, j + 1, k) && NumRun(s, k, m) && s[m] == ')'
  }

  /** Every match has the shape the regular expression describes, and its
      captures are the two runs of number characters. */
  lemma MatchAtShape(s: string, i: nat) returns (j: nat, k: nat, m: nat)
    requires i <= |s| && MatchAt(s, i).Some?
    ensures Shape(s, i, j, k, m) && MatchAt(s, i) == Some(LatLng(s[i + 1..j], s[k..m]))
  {
    j := RunEnd(s, i + 1);
    k := SpaceEnd(s, j + 1);
    m := RunEnd(s, k);
    RunEndSpec(s, i + 1);
    SpaceEndSpec(s, j + 1);
    RunEndSpec(s, k);
  }

  /** The converse: wherever the pattern occurs, the regular expression
      matches there and captures the two runs. */
  lemma MatchAtComplete(s: string, i: nat, j: nat, k: nat, m: nat)
    requires Shape(s, i, j, k, m)
    ensures MatchAt(s, i) == Some(LatLng(s[i + 1..j], s[k..m]))
  {
    RunOver(s, i + 1, j);
    assert IsNumChar(s[k]);
    SpaceOver(s, j + 1, k);
    RunOver(s, k, m);
  }

  /** A maximal run of number characters ends where `RunEnd` says. */
  lemma {:induction false} RunOver(s: string, i: nat, j: nat)
    requires i <= j < |s|
    requires NumRun(s, i, j)
    requires !IsNumChar(s[j])
    ensures RunEnd(s, i) == j
    decreases j - i
  {
    if i < j { RunOver(s, i + 1, j); }
  }

  /** A maximal run of white space ends where `SpaceEnd` says. */
  lemma {:induction false} SpaceOver(s: string, i: nat, j: nat)
    requires i <= j < |s|
    requires AllSpace(s, i, j)
    requires !IsSpace(s[j])
    ensures SpaceEnd(s, i) == j
    decreases j - i
  {
    if i < j { SpaceOver(s, i + 1, j); }
  }

  /** A run of number characters of length at least one is a token. */
  lemma RunIsToken(s: string, from: nat, to: nat)
    requires from < to <= |s| && NumRun(s, from, to)
    ensures IsToken(s[from..to])
  {
    forall x | 0 <= x < to - from ensures IsNumChar(s[from..to][x]) {
      assert s[from..to][x] == s[from + x];
    }
  }

  /** Round trip: the text the marker effect writes parses back to the same
      two tokens, for any point whose components are tokens. */
  lemma ParseFormat(p: LatLng)
    requires IsToken(p.lat) && IsToken(p.lng)
    ensures Parse(Format(p)) == Some(p)
  {
    var s := Format(p);
    var j := 1 + |p.lat|;
    var k := j + 2;
    var m := k + |p.lng|;
    assert s[1..j] == p.lat;
    assert s[k..m] == p.lng;
    forall x | 1 <= x < j ensures IsNumChar(s[x]) {
      assert s[x] == p.lat[x - 1];
    }
    forall x | k <= x < m ensures IsNumChar(s[x]) {
      assert s[x] == p.lng[x - k];
    }
    assert Shape(s, 0, j, k, m);
    MatchAtComplete(s, 0, j, k, m);
    assert MatchFrom(s, 0) == MatchAt(s, 0);
  }

  /** What `Parse` returns is the pair of runs captured at the leftmost
      index where the pattern occurs; both are tokens. */
  lemma ParseSound(s: string) returns (i: nat, j: nat, k: nat, m: nat)
    requires Parse(s).Some?
    ensures Shape(s, i, j, k, m) && Parse(s) == Some(LatLng(s[i + 1..j], s[k..m]))
    ensures IsToken(Parse(s).value.lat) && IsToken(Parse(s).value.lng)
    ensures forall x :: 0 <= x < i ==> MatchAt(s, x).None?
  {
    i := MatchFromLeftmost(s, 0);
    j, k, m := MatchAtShape(s, i);
    RunIsToken(s, i + 1, j);
    RunIsToken(s, k, m);
  }

  /** Text holding the pattern anywhere always parses; a parse fails only
      when the pattern occurs nowhere. */
  lemma ParseComplete(s: string, i: nat, j: nat, k: nat, m: nat)
    requires Shape(s, i, j, k, m)
    ensures Parse(s).Some?
  {
    MatchAtComplete(s, i, j, k, m);
    var _ := MatchFromLeftmost(s, 0);
  }

  /** Text without a parenthesised pair does not parse; `"garbage"` and
      `"(1.5,)"` are two such texts. */
  lemma ParseRejects()
    ensures Parse("garbage") == None
    ensures Parse("(1.5,)") == None
  {
  }

  /** JavaScript writes numbers below 1e-6 in magnitude in exponent form
      (`1e-7`, `-2.5e-8`). A latitude written that way is not a token, and
      its `loc` text does not parse back, whatever the longitude. */
  lemma ExponentTextDoesNotParse(lat: string, lng: string, p: nat)
    requires p < |lat| && lat[p] == 'e'
    requires forall x :: 0 <= x < |lat| && x != p ==> IsNumChar(lat[x])
    requires IsToken(lng)
    ensures !IsToken(lat)
    ensures Parse(Format(LatLng(lat, lng))) == None
  {
    assert !IsNumChar(lat[p]);
    var s := Format(LatLng(lat, lng));
    var e := 1 + p;
    assert s[e] == 'e';
    forall x | 0 <= x <= |s| ensures MatchAt(s, x).None? {
      if x == 0 {
        RunEndSpec(s, 1);
        var j := RunEnd(s, 1);
        assert j == e;
      } else if x < |s| {
        if x <= |lat| {
          assert s[x] == lat[x - 1];
        } else if x == |lat| + 1 {
          assert s[x] == ',';
        } else if x == |lat| + 2 {
          assert s[x] == ' ';
        } else if x < |s| - 1 {
          assert s[x] == lng[x - |lat| - 3];
        } else {
          assert s[x] == ')';
        }
      }
    }
    var _ := MatchFromLeftmost(s, 0);
  }

  /** The starting `loc` of the create form is the formatted fallback point. */
  lemma FallbackText()
    ensures Format(Fallback) == "(-6.2, 106.816666)"
    ensures Parse("(-6.2, 106.816666)") == Some(Fallback)
  {
    assert Format(Fallback) == "(-6.2, 106.816666)";
    assert IsToken("-6.2") by {
      forall i | 0 <= i < 4 ensures IsNumChar("-6.2"[i]) { }
    }
    assert IsToken("106.816666") by {
      forall i | 0 <= i < 10 ensures IsNumChar("106.816666"[i]) { }
    }
    ParseFormat(Fallback);
  }
}

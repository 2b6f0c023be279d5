/** Payload key tokens, and the keys that may never be recorded. */
module PayloadKeys {
  import opened Common

  predicate IsUpper(c: char) {
    'A' <= c <= 'Z'
  }

  predicate IsLower(c: char) {
    'a' <= c <= 'z'
  }

  predicate IsDigit(c: char) {
    '0' <= c <= '9'
  }

  predicate IsAlnum(c: char) {
    IsUpper(c) || IsLower(c) || IsDigit(c)
  }

  function ToLower(c: char): char {
    if IsUpper(c) then (c as int - 'A' as int + 'a' as int) as char else c
  }

  function ToUpper(c: char): char {
    if IsLower(c) then (c as int - 'a' as int + 'A' as int) as char else c
  }

  function LowerAll(s: string): (r: string)
    ensures |r| == |s|
  {
    seq(|s|, i requires 0 <= i < |s| => ToLower(s[i]))
  }

  // ----- the scan

  /** The tokens finished so far and the one being built. */
  datatype Scan = Scan(tokens: seq<string>, current: string)

  function Flush(s: Scan): Scan {
    if s.current == "" then s else Scan(s.tokens + [LowerAll(s.current)], "")
  }

  /** One rune: a capital after anything but a capital ends the token before it, and anything but an
      ASCII letter or digit ends it and is dropped. */
  function Step(s: Scan, prev: Option<char>, c: char): Scan {
    if !IsAlnum(c) then Flush(s) else
    var s := if IsUpper(c) && prev.Some? && !IsUpper(prev.value) then Flush(s) else s;
    s.(current := s.current + [c])
  }

  function Run(s: Scan, prev: Option<char>, rest: string): Scan
    decreases |rest|
  {
    if rest == "" then s else Run(Step(s, prev, rest[0]), Some(rest[0]), rest[1..])
  }

  function Tokens(key: string): seq<string> {
    Flush(Run(Scan([], ""), None, key)).tokens
  }

  method PayloadKeyTokens(key: string) returns (tokens: seq<string>)
    ensures tokens == Tokens(key)
  {
    tokens := [];
    var current := "";
    for i := 0 to |key|
      invariant Run(Scan(tokens, current), if i == 0 then None else Some(key[i - 1]), key[i..])
             == Run(Scan([], ""), None, key)
    {
      var r := key[i];
      assert key[i..][0] == r && key[i..][1..] == key[i + 1..];
      if IsAlnum(r) {
        if IsUpper(r) && i > 0 && !IsUpper(key[i - 1]) && current != "" {
          tokens, current := tokens + [LowerAll(current)], "";
        }
        current := current + [r];
      } else if current != "" {
        tokens, current := tokens + [LowerAll(current)], "";
      }
    }
    if current != "" {
      tokens := tokens + [LowerAll(current)];
    }
  }

  lemma {:induction false} RunConcat(s: Scan, prev: Option<char>, a: string, b: string)
    ensures Run(s, prev, a + b) == Run(Run(s, prev, a), if a == "" then prev else Some(a[|a| - 1]), b)
    decreases |a|
  {
    if a == "" {
      assert a + b == b;
    } else {
      assert (a + b)[1..] == a[1..] + b;
      RunConcat(Step(s, prev, a[0]), Some(a[0]), a[1..], b);
    }
  }

  // ----- what tokens are

  /** A finished token: not empty, and only lowercase letters and digits. */
  predicate IsToken(w: string) {
    w != "" && forall i :: 0 <= i < |w| ==> IsLower(w[i]) || IsDigit(w[i])
  }

  predicate AreTokens(ws: seq<string>) {
    forall i :: 0 <= i < |ws| ==> IsToken(ws[i])
  }

  function Concat(ws: seq<string>): string {
    if ws == [] then "" else Concat(ws[..|ws| - 1]) + ws[|ws| - 1]
  }

  /** The letters and digits of a key, lowercased. */
  function Content(key: string): string {
    if key == "" then "" else (if IsAlnum(key[0]) then [ToLower(key[0])] else "") + Content(key[1..])
  }

  ghost predicate ScanOk(s: Scan) {
    AreTokens(s.tokens) && forall i :: 0 <= i < |s.current| ==> IsAlnum(s.current[i])
  }

  /** What a scan has taken in so far. */
  function Taken(s: Scan): string {
    Concat(s.tokens) + LowerAll(s.current)
  }

  lemma FlushKeeps(s: Scan)
    requires ScanOk(s)
    ensures ScanOk(Flush(s)) && Taken(Flush(s)) == Taken(s) && Flush(s).current == ""
  {
    if s.current != "" {
      assert (s.tokens + [LowerAll(s.current)])[..|s.tokens|] == s.tokens;
    } else {
      assert LowerAll(s.current) == "";
    }
  }

  lemma Regroup(a: string, b: string, c: string)
    ensures (a + b) + c == a + (b + c)
  {
  }

  lemma LowerConcat(a: string, b: string)
    ensures LowerAll(a + b) == LowerAll(a) + LowerAll(b)
  {
  }

  lemma PushKeeps(s: Scan, c: char)
    requires ScanOk(s) && IsAlnum(c)
    ensures ScanOk(s.(current := s.current + [c]))
    ensures Taken(s.(current := s.current + [c])) == Taken(s) + [ToLower(c)]
  {
    hide AreTokens, Concat;
    LowerConcat(s.current, [c]);
    assert LowerAll([c]) == [ToLower(c)];
    Regroup(Concat(s.tokens), LowerAll(s.current), [ToLower(c)]);
  }

  lemma StepKeeps(s: Scan, prev: Option<char>, c: char)
    requires ScanOk(s)
    ensures ScanOk(Step(s, prev, c))
    ensures Taken(Step(s, prev, c)) == Taken(s) + if IsAlnum(c) then [ToLower(c)] else ""
  {
    hide ScanOk, Taken, Flush;
    FlushKeeps(s);
    if IsAlnum(c) {
      PushKeeps(if IsUpper(c) && prev.Some? && !IsUpper(prev.value) then Flush(s) else s, c);
    } else {
      assert Taken(s) + "" == Taken(s);
    }
  }

  lemma {:induction false} RunKeeps(s: Scan, prev: Option<char>, rest: string)
    requires ScanOk(s)
    ensures ScanOk(Run(s, prev, rest))
    ensures Taken(Run(s, prev, rest)) == Taken(s) + Content(rest)
    decreases |rest|
  {
    if rest == "" {
      assert Taken(s) + Content(rest) == Taken(s);
    } else {
      var first := if IsAlnum(rest[0]) then [ToLower(rest[0])] else "";
      StepKeeps(s, prev, rest[0]);
      RunKeeps(Step(s, prev, rest[0]), Some(rest[0]), rest[1..]);
      Regroup(Taken(s), first, Content(rest[1..]));
    }
  }

  /** Tokens are non-empty lowercase words that together are exactly the key's letters and digits,
      lowercased and in order. */
  lemma TokensAreContent(key: string)
    ensures AreTokens(Tokens(key)) && Concat(Tokens(key)) == Content(key)
  {
    var end := Run(Scan([], ""), None, key);
    RunKeeps(Scan([], ""), None, key);
    FlushKeeps(end);
    assert Taken(Scan([], "")) == "" && "" + Content(key) == Content(key);
    assert Taken(Flush(end)) == Concat(Flush(end).tokens);
  }

  // ----- normal form

  function Join(ws: seq<string>): string {
    if ws == [] then "" else
    if |ws| == 1 then ws[0] else Join(ws[..|ws| - 1]) + "_" + ws[|ws| - 1]
  }

  /** Lowercase letters and digits only ever extend the token being built. */
  lemma {:induction false} RunPlain(s: Scan, prev: Option<char>, w: string)
    requires forall i :: 0 <= i < |w| ==> IsLower(w[i]) || IsDigit(w[i])
    ensures Run(s, prev, w) == s.(current := s.current + w)
    decreases |w|
  {
    if w == "" {
      assert s.current + w == s.current;
    } else {
      RunPlain(Step(s, prev, w[0]), Some(w[0]), w[1..]);
      assert s.current + [w[0]] + w[1..] == s.current + w;
    }
  }

  lemma LowerFixed(w: string)
    requires IsToken(w)
    ensures LowerAll(w) == w
  {
  }

  // ----- separators

  /** With no token being built it does not matter what stood before. */
  lemma FreshStart(ts: seq<string>, p: Option<char>, q: Option<char>, rest: string)
    ensures Run(Scan(ts, ""), p, rest) == Run(Scan(ts, ""), q, rest)
  {
  }

  /** Nor what has been finished before. */
  lemma {:induction false} RunShifted(ts: seq<string>, s: Scan, prev: Option<char>, rest: string)
    ensures Run(Scan(ts + s.tokens, s.current), prev, rest) ==
      Scan(ts + Run(s, prev, rest).tokens, Run(s, prev, rest).current)
    decreases |rest|
  {
    if rest != "" {
      StepShifted(ts, s, prev, rest[0]);
      RunShifted(ts, Step(s, prev, rest[0]), Some(rest[0]), rest[1..]);
    }
  }

  lemma StepShifted(ts: seq<string>, s: Scan, prev: Option<char>, c: char)
    ensures Step(Scan(ts + s.tokens, s.current), prev, c) ==
      Scan(ts + Step(s, prev, c).tokens, Step(s, prev, c).current)
  {
    assert ts + (s.tokens + [LowerAll(s.current)]) == ts + s.tokens + [LowerAll(s.current)];
  }

  /** Anything but an ASCII letter or digit separates: the tokens of what stands before it are followed by
      those of what stands after it, and nothing is lost or joined across it. */
  lemma SeparatorSplits(a: string, c: char, b: string)
    requires !IsAlnum(c)
    ensures Tokens(a + [c] + b) == Tokens(a) + Tokens(b)
  {
    var s0, s := Scan([], ""), Run(Scan([], ""), None, a);
    RunConcat(s0, None, a + [c], b);
    RunConcat(s0, None, a, [c]);
    assert [c][1..] == "";
    assert Run(s0, None, a + [c]) == Scan(Tokens(a), "");
    FreshStart(Tokens(a), Some(c), None, b);
    assert Tokens(a) + s0.tokens == Tokens(a);
    RunShifted(Tokens(a), s0, None, b);
    var r := Run(s0, None, b);
    assert Tokens(a) + (r.tokens + [LowerAll(r.current)]) == Tokens(a) + r.tokens + [LowerAll(r.current)];
  }

  /** So does a capital that follows anything but a capital, wherever the two stand. */
  lemma CapitalSplits(a: string, b: string)
    requires a != "" && b != "" && !IsUpper(a[|a| - 1]) && IsUpper(b[0])
    ensures Tokens(a + b) == Tokens(a) + Tokens(b)
  {
    var s0, first := Scan([], ""), Scan([], [b[0]]);
    var s := Run(s0, None, a);
    RunConcat(s0, None, a, b);
    assert "" + [b[0]] == [b[0]];
    assert Step(s, Some(a[|a| - 1]), b[0]) == Scan(Tokens(a) + first.tokens, first.current);
    assert Step(s0, None, b[0]) == first;
    RunShifted(Tokens(a), first, Some(b[0]), b[1..]);
    var r := Run(s0, None, b);
    assert Tokens(a) + (r.tokens + [LowerAll(r.current)]) == Tokens(a) + r.tokens + [LowerAll(r.current)];
  }

  /** At least one character, none of them an ASCII letter or digit. */
  predicate IsGap(gap: string) {
    gap != "" && forall i :: 0 <= i < |gap| ==> !IsAlnum(gap[i])
  }

  lemma {:induction false} GapSplits(a: string, gap: string, b: string)
    requires IsGap(gap)
    ensures Tokens(a + gap + b) == Tokens(a) + Tokens(b)
    decreases |gap|
  {
    var n := |gap| - 1;
    if n == 0 {
      assert gap == [gap[0]];
      SeparatorSplits(a, gap[0], b);
    } else {
      GapSplits(a, gap[..n], [gap[n]] + b);
      SeparatorSplits("", gap[n], b);
      assert "" + [gap[n]] + b == [gap[n]] + b;
      assert a + gap + b == a + gap[..n] + ([gap[n]] + b);
      assert Tokens("") + Tokens(b) == Tokens(b);
    }
  }

  predicate AreGaps(gaps: seq<string>) {
    forall i :: 0 <= i < |gaps| ==> IsGap(gaps[i])
  }

  /** The words with a gap before each but the first. */
  function JoinWith(ws: seq<string>, gaps: seq<string>): string
    requires |ws| == |gaps| + 1
  {
    if gaps == [] then ws[0] else
    JoinWith(ws[..|gaps|], gaps[..|gaps| - 1]) + gaps[|gaps| - 1] + ws[|gaps|]
  }

  lemma SingleToken(w: string)
    requires IsToken(w)
    ensures Tokens(w) == [w]
  {
    RunPlain(Scan([], ""), None, w);
    LowerFixed(w);
    assert "" + w == w && [] + [w] == [w];
  }

  /** Any list of tokens survives being joined by any separators, kebab-case, dotted or spaced, and
      split again. */
  lemma {:induction false} GapRoundTrip(ws: seq<string>, gaps: seq<string>)
    requires AreTokens(ws) && AreGaps(gaps) && |ws| == |gaps| + 1
    ensures Tokens(JoinWith(ws, gaps)) == ws
  {
    var n := |gaps|;
    SingleToken(ws[n]);
    if n == 0 {
      assert ws == [ws[0]];
    } else {
      GapRoundTrip(ws[..n], gaps[..n - 1]);
      GapSplits(JoinWith(ws[..n], gaps[..n - 1]), gaps[n - 1], ws[n]);
      assert ws == ws[..n] + [ws[n]];
    }
  }

  /** Any list of tokens survives being joined with underscores and split again. */
  lemma {:induction false} JoinRoundTrip(ws: seq<string>)
    requires AreTokens(ws)
    ensures Tokens(Join(ws)) == ws
  {
    if ws != [] {
      var n := |ws| - 1;
      SingleToken(ws[n]);
      if n == 0 {
        assert ws == [ws[0]];
      } else {
        JoinRoundTrip(ws[..n]);
        SeparatorSplits(Join(ws[..n]), '_', ws[n]);
        assert ws == ws[..n] + [ws[n]];
      }
    }
  }

  const FORBIDDEN: set<string> := {
    "email", "name", "username", "nickname", "ip", "useragent", "agent", "password", "token", "secret",
    "address", "phone"
  }

  predicate Forbidden(key: string) {
    exists i :: 0 <= i < |Tokens(key)| && Tokens(key)[i] in FORBIDDEN
  }

  method ForbiddenPayloadKey(key: string) returns (forbidden: bool)
    ensures forbidden <==> Forbidden(key)
  {
    var tokens := PayloadKeyTokens(key);
    for i := 0 to |tokens|
      invariant forall j :: 0 <= j < i ==> tokens[j] !in FORBIDDEN
    {
      if tokens[i] in FORBIDDEN {
        return true;
      }
    }
    return false;
  }

  /** A key is forbidden exactly when its snake_case form is, and that form is its own normal form. */
  lemma ForbiddenOnNormalForm(key: string)
    ensures Forbidden(key) <==> Forbidden(Join(Tokens(key)))
    ensures Join(Tokens(Join(Tokens(key)))) == Join(Tokens(key))
  {
    TokensAreContent(key);
    JoinRoundTrip(Tokens(key));
  }

  /** Nothing is hidden behind a separator: a key is forbidden exactly when a part of it is. */
  lemma ForbiddenBySeparator(a: string, c: char, b: string)
    requires !IsAlnum(c)
    ensures Forbidden(a + [c] + b) <==> Forbidden(a) || Forbidden(b)
  {
    SeparatorSplits(a, c, b);
    var ts, n := Tokens(a + [c] + b), |Tokens(a)|;
    assert forall i :: 0 <= i < n ==> ts[i] == Tokens(a)[i];
    assert forall i :: 0 <= i < |Tokens(b)| ==> ts[n + i] == Tokens(b)[i];
  }

  // ----- camelCase

  /** A word as it appears after the first in a camelCase key. */
  function Capitalise(w: string): (r: string)
    requires w != ""
    ensures |r| == |w|
  {
    [ToUpper(w[0])] + w[1..]
  }

  function Camel(ws: seq<string>): string
    requires AreTokens(ws)
  {
    if ws == [] then "" else
    if |ws| == 1 then ws[0] else Camel(ws[..|ws| - 1]) + Capitalise(ws[|ws| - 1])
  }

  /** Where word `i` starts a new token: it can be capitalised, and what stands before its capital is
      not a capital itself. */
  predicate HasHump(ws: seq<string>, i: nat)
    requires AreTokens(ws) && 1 <= i < |ws|
  {
    IsLower(ws[i][0]) && (i >= 2 ==> |ws[i - 1]| >= 2 || IsDigit(ws[i - 1][0]))
  }

  predicate Humped(ws: seq<string>, n: nat)
    requires AreTokens(ws) && n <= |ws|
  {
    forall i :: 1 <= i < n ==> HasHump(ws, i)
  }

  lemma CapitaliseLower(w: string)
    requires IsToken(w)
    ensures LowerAll(Capitalise(w)) == w
  {
  }

  /** The scan after a capitalised word: a new token when the word starts with a letter and no capital
      stands before it. */
  ghost function Joined(s: Scan, prev: char, w: string): Scan
    requires IsToken(w)
  {
    if IsLower(w[0]) && !IsUpper(prev) then Scan(s.tokens + [LowerAll(s.current)], Capitalise(w))
    else s.(current := s.current + Capitalise(w))
  }

  lemma StepCapital(s: Scan, prev: char, w: string)
    requires IsToken(w) && s.current != ""
    ensures var m := Step(s, Some(prev), ToUpper(w[0]));
      m.(current := m.current + w[1..]) == Joined(s, prev, w)
  {
    var c := ToUpper(w[0]);
    assert IsUpper(c) <==> IsLower(w[0]);
    assert s.current + [c] + w[1..] == s.current + Capitalise(w);
    assert "" + [c] + w[1..] == Capitalise(w);
  }

  lemma RunCapital(s: Scan, prev: char, w: string)
    requires IsToken(w) && s.current != ""
    ensures Run(s, Some(prev), Capitalise(w)) == Joined(s, prev, w)
  {
    var c := Capitalise(w);
    assert c[0] == ToUpper(w[0]) && c[1..] == w[1..];
    StepCapital(s, prev, w);
    RunPlain(Step(s, Some(prev), c[0]), Some(c[0]), w[1..]);
  }

  /** What the scan of a key made of `ws` has come to: never more tokens than words, and as many exactly
      when every word had its hump — then the very words. */
  ghost predicate Agrees(ws: seq<string>, key: string, s: Scan)
    requires AreTokens(ws) && ws != []
  {
    && key != "" && s.current != "" && |s.tokens| + 1 <= |ws|
    && (IsUpper(key[|key| - 1]) <==> |ws| >= 2 && |ws[|ws| - 1]| == 1 && IsLower(ws[|ws| - 1][0]))
    && (|s.tokens| + 1 == |ws| <==> Humped(ws, |ws|))
    && (Humped(ws, |ws|) ==> s.tokens + [LowerAll(s.current)] == ws)
  }

  lemma HumpedStep(ws: seq<string>, w: string)
    requires AreTokens(ws) && ws != [] && IsToken(w)
    ensures AreTokens(ws + [w])
    ensures Humped(ws + [w], |ws| + 1)
       <==> Humped(ws, |ws|) && IsLower(w[0]) && (|ws| >= 2 ==> |ws[|ws| - 1]| >= 2 || IsDigit(ws[|ws| - 1][0]))
  {
    var more := ws + [w];
    assert forall i :: 1 <= i < |ws| ==> (HasHump(more, i) <==> HasHump(ws, i));
    assert HasHump(more, |ws|) <==> IsLower(w[0]) && (|ws| >= 2 ==> |ws[|ws| - 1]| >= 2 || IsDigit(ws[|ws| - 1][0]));
  }

  lemma CapitaliseEnd(w: string)
    requires IsToken(w)
    ensures IsUpper(Capitalise(w)[|w| - 1]) <==> |w| == 1 && IsLower(w[0])
  {
  }

  lemma AgreesStep(ws: seq<string>, key: string, s: Scan, w: string, s': Scan)
    requires AreTokens(ws) && ws != [] && IsToken(w) && Agrees(ws, key, s)
    requires s' == Joined(s, key[|key| - 1], w)
    ensures AreTokens(ws + [w]) && Agrees(ws + [w], key + Capitalise(w), s')
  {
    HumpedStep(ws, w);
    CapitaliseEnd(w);
    CapitaliseLower(w);
    var more := key + Capitalise(w);
    assert more[|more| - 1] == Capitalise(w)[|w| - 1];
    assert (ws + [w])[|ws|] == w;
  }

  lemma CamelExtend(ws: seq<string>, key: string, w: string)
    requires AreTokens(ws) && ws != [] && IsToken(w) && Agrees(ws, key, Run(Scan([], ""), None, key))
    ensures AreTokens(ws + [w])
    ensures Agrees(ws + [w], key + Capitalise(w), Run(Scan([], ""), None, key + Capitalise(w)))
  {
    var s := Run(Scan([], ""), None, key);
    RunConcat(Scan([], ""), None, key, Capitalise(w));
    RunCapital(s, key[|key| - 1], w);
    AgreesStep(ws, key, s, w, Joined(s, key[|key| - 1], w));
  }

  lemma {:induction false} CamelScan(ws: seq<string>)
    requires AreTokens(ws) && ws != []
    ensures Agrees(ws, Camel(ws), Run(Scan([], ""), None, Camel(ws)))
  {
    var s0 := Scan([], "");
    if |ws| == 1 {
      RunPlain(s0, None, ws[0]);
      assert "" + ws[0] == ws[0];
      LowerFixed(ws[0]);
    } else {
      var front, w := ws[..|ws| - 1], ws[|ws| - 1];
      CamelScan(front);
      CamelExtend(front, Camel(front), w);
      assert ws == front + [w];
    }
  }

  /** A camelCase key splits back into its words exactly when every word after the first starts with a
      letter and no capitalised single letter stands before another word: `userAgent` does, while `aBC`
      comes apart as `a` and `bc`. */
  lemma CamelRoundTripExactly(ws: seq<string>)
    requires AreTokens(ws)
    ensures Tokens(Camel(ws)) == ws <==> Humped(ws, |ws|)
  {
    if ws != [] {
      CamelScan(ws);
    }
  }

  lemma {:induction false} RunCapitals(s: Scan, prev: Option<char>, w: string)
    requires prev.None? || IsUpper(prev.value)
    requires forall i :: 0 <= i < |w| ==> IsUpper(w[i])
    ensures Run(s, prev, w) == s.(current := s.current + w)
    decreases |w|
  {
    if w == "" {
      assert s.current + w == s.current;
    } else {
      RunCapitals(Step(s, prev, w[0]), Some(w[0]), w[1..]);
      assert s.current + [w[0]] + w[1..] == s.current + w;
    }
  }

  lemma CapitalsScan(acronym: string, word: string)
    requires acronym != "" && forall i :: 0 <= i < |acronym| ==> IsUpper(acronym[i])
    requires IsToken(word)
    ensures Run(Scan([], ""), None, acronym + Capitalise(word)) == Scan([], acronym + Capitalise(word))
  {
    var s0 := Scan([], "");
    RunCapitals(s0, None, acronym);
    assert "" + acronym == acronym;
    RunConcat(s0, None, acronym, Capitalise(word));
    RunCapital(Scan([], acronym), acronym[|acronym| - 1], word);
  }

  lemma Underscored(a: string, b: string)
    requires IsToken(a) && IsToken(b)
    ensures Tokens(a + "_" + b) == [a, b]
  {
    var ws := [a, b];
    assert ws[..1] == [a];
    assert Join(ws) == a + "_" + b;
    JoinRoundTrip(ws);
  }

  /** Whatever follows an acronym in capitals runs into it, for every acronym and every word: only the
      snake_case spelling keeps the two apart. */
  lemma AcronymMerges(acronym: string, word: string)
    requires acronym != "" && forall i :: 0 <= i < |acronym| ==> IsUpper(acronym[i])
    requires IsToken(word)
    ensures Tokens(acronym + Capitalise(word)) == [LowerAll(acronym) + word]
    ensures Tokens(LowerAll(acronym) + "_" + word) == [LowerAll(acronym), word]
  {
    CapitalsScan(acronym, word);
    CapitaliseLower(word);
    LowerConcat(acronym, Capitalise(word));
    assert IsToken(LowerAll(acronym));
    Underscored(LowerAll(acronym), word);
  }

  /** So a key may be refused in snake_case and kept in capitals: `ip_address` is refused for its
      tokens, while `IPAddress` is the one token `ipaddress`, which is not listed. */
  lemma AcronymEscapes(acronym: string, word: string)
    requires acronym != "" && forall i :: 0 <= i < |acronym| ==> IsUpper(acronym[i])
    requires IsToken(word)
    ensures Forbidden(acronym + Capitalise(word)) <==> LowerAll(acronym) + word in FORBIDDEN
    ensures Forbidden(LowerAll(acronym) + "_" + word) <==> LowerAll(acronym) in FORBIDDEN || word in FORBIDDEN
    ensures "ip" in FORBIDDEN && "ipaddress" !in FORBIDDEN
  {
    AcronymMerges(acronym, word);
    var snake := Tokens(LowerAll(acronym) + "_" + word);
    assert snake[0] == LowerAll(acronym) && snake[1] == word;
    assert Tokens(acronym + Capitalise(word))[0] == LowerAll(acronym) + word;
  }

  // ----- payloads

  /** The allowed part of a payload; `None` is Go's nil. */
  function Sanitized<V>(payload: map<string, V>): Option<map<string, V>> {
    var cleaned := map key | key in payload && !Forbidden(key) :: payload[key];
    if cleaned == map[] then None else Some(cleaned)
  }

  function OrEmpty<V>(payload: Option<map<string, V>>): map<string, V> {
    if payload.Some? then payload.value else map[]
  }

  method SanitizePayload<V>(payload: map<string, V>) returns (r: Option<map<string, V>>)
    ensures r == Sanitized(payload)
  {
    if payload == map[] {
      return None;
    }
    var cleaned: map<string, V> := map[];
    var left := payload.Keys;
    while left != {}
      invariant left <= payload.Keys
      invariant cleaned == map key | key in payload && key !in left && !Forbidden(key) :: payload[key]
      decreases left
    {
      var key :| key in left;
      left := left - {key};
      var forbidden := ForbiddenPayloadKey(key);
      if forbidden {
        continue;
      }
      cleaned := cleaned[key := payload[key]];
    }
    assert cleaned == map key | key in payload && !Forbidden(key) :: payload[key];
    if cleaned == map[] {
      return None;
    }
    return Some(cleaned);
  }

  /** Exactly the allowed keys survive, with their values, never as an empty map; and cleaning a clean
      payload changes nothing. */
  lemma SanitizedExactly<V>(payload: map<string, V>)
    ensures forall key :: key in OrEmpty(Sanitized(payload)) <==> key in payload && !Forbidden(key)
    ensures forall key :: key in OrEmpty(Sanitized(payload)) ==> OrEmpty(Sanitized(payload))[key] == payload[key]
    ensures Sanitized(payload) != Some(map[])
    ensures Sanitized(OrEmpty(Sanitized(payload))) == Sanitized(payload)
  {
    var once := OrEmpty(Sanitized(payload));
    assert (map key | key in once && !Forbidden(key) :: once[key]) == once;
  }
}

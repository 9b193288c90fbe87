/** Access-token lifecycle for the KIS OpenAPI (adapters/kis_auth.py): when a
    new token is needed, how a token is normalised and its expiry computed,
    and the line-based rewrite of the `[auth]` section of the keys file used
    when no TOML writer is available. The clock, the token endpoint's reply
    and the file's lines are inputs. */
module KisAuth {
  import opened Wrappers
  import opened Text
  import opened Entities

  datatype KisKeys = KisKeys(appkey: string, appsecret: string, accessToken: Option<string>,
                             expiresAt: Option<real>, path: string, isVts: bool)

  const BearerPrefix := "Bearer "

  /** `raw if raw.startswith("Bearer ") else f"Bearer {raw}"`. */
  function NormalizeBearer(raw: string): (r: string)
    ensures StartsWith(r, BearerPrefix)
    ensures StartsWith(raw, BearerPrefix) ==> r == raw
    ensures !StartsWith(raw, BearerPrefix) ==> r == BearerPrefix + raw
  {
    if StartsWith(raw, BearerPrefix) then raw else BearerPrefix + raw
  }

  /** Normalising twice adds the prefix only once. */
  lemma NormalizeBearerIdempotent(raw: string)
    ensures NormalizeBearer(NormalizeBearer(raw)) == NormalizeBearer(raw)
  {
  }

  /** `s.replace('"', '\\"')`. */
  function EscapeQuotes(s: string): (r: string)
    ensures '"' !in s ==> r == s
  {
    ReplaceChar(s, '"', "\\\"")
  }

  /** Reading a TOML basic string back: `\"` stands for `"`. */
  function UnescapeQuotes(s: string): string {
    if |s| >= 2 && s[0] == '\\' && s[1] == '"' then "\"" + UnescapeQuotes(s[2..])
    else if |s| == 0 then ""
    else [s[0]] + UnescapeQuotes(s[1..])
  }

  /** Without backslashes in the token, the escaped form reads back as the token. */
  lemma {:induction false} EscapeRoundTrip(s: string)
    requires '\\' !in s
    ensures UnescapeQuotes(EscapeQuotes(s)) == s
  {
    if |s| > 0 {
      EscapeRoundTrip(s[1..]);
      var rest := EscapeQuotes(s[1..]);
      if s[0] == '"' {
        assert EscapeQuotes(s) == "\\\"" + rest;
        assert (EscapeQuotes(s))[2..] == rest;
      } else {
        assert EscapeQuotes(s) == [s[0]] + rest;
        assert (EscapeQuotes(s))[1..] == rest;
      }
    }
  }

  /** `expires_in or 3600`: the lifetime in seconds, a zero or missing value meaning an hour. */
  function Lifetime(expiresIn: Option<int>): (r: int)
    ensures expiresIn.None? || expiresIn.value == 0 ==> r == 3600
    ensures expiresIn.Some? && expiresIn.value != 0 ==> r == expiresIn.value
  {
    if expiresIn.Some? && expiresIn.value != 0 then expiresIn.value else 3600
  }

  /** The stored expiry: 30 seconds before the token's lifetime runs out. */
  function Expiry(now: real, expiresIn: Option<int>): (r: real)
    ensures r < now + Lifetime(expiresIn) as real
    ensures r + 30.0 == now + Lifetime(expiresIn) as real
  {
    now + Lifetime(expiresIn) as real - 30.0
  }

  function TokenLine(bearer: string): string {
    "access_token = \"" + EscapeQuotes(bearer) + "\""
  }

  function ExpiryLine(exp: real): string {
    "expires_at = " + IntToString(Trunc(exp))
  }

  // ------------------------------------------------------------ the [auth] rewriter

  datatype RewriteState = RewriteState(inAuth: bool, seenToken: bool, seenExp: bool)

  const Start := RewriteState(false, false, false)

  predicate IsAuthHeader(line: string) { StartsWith(Strip(line), "[auth]") }
  predicate IsHeader(line: string) { StartsWith(Strip(line), "[") }
  predicate IsTokenKey(line: string) { StartsWith(Strip(line), "access_token") }
  predicate IsExpiryKey(line: string) { StartsWith(Strip(line), "expires_at") }

  /** The key lines still owed to the section being left. */
  function Missing(st: RewriteState, tok: string, exp: string): (r: seq<string>)
    ensures !st.seenToken ==> tok in r
    ensures !st.seenExp ==> exp in r
    ensures forall l :: l in r ==> l == tok || l == exp
  {
    (if st.seenToken then [] else [tok]) + (if st.seenExp then [] else [exp])
  }

  /** What one input line contributes to the output, and the state after it. */
  datatype Step = Step(emitted: seq<string>, next: RewriteState)

  /** One iteration of the fallback loop of `_save_token`: an `[auth]` header opens the
      section; another header closes it after the owed key lines; inside it the two key
      lines are replaced; every other line is copied. */
  function StepLine(line: string, st: RewriteState, tok: string, exp: string): (r: Step)
    ensures forall l :: l in r.emitted ==> l == line || l == tok || l == exp
    ensures line in r.emitted || (st.inAuth && (IsTokenKey(line) || IsExpiryKey(line)))
  {
    if IsAuthHeader(line) then Step([line], st.(inAuth := true))
    else
      var leaving := st.inAuth && IsHeader(line);
      var pre := if leaving then Missing(st, tok, exp) else [];
      var st1 := if leaving then RewriteState(false, true, true) else st;
      var isToken := st1.inAuth && IsTokenKey(line);
      var isExpiry := !isToken && st1.inAuth && IsExpiryKey(line);
      var out := if isToken then tok else if isExpiry then exp else line;
      var next := if isToken then st1.(seenToken := true) else if isExpiry then st1.(seenExp := true) else st1;
      InAppend(pre, out);
      Step(pre + [out], next)
  }

  lemma InAppend(pre: seq<string>, x: string)
    ensures x in pre + [x]
    ensures forall l :: l in pre + [x] ==> l in pre || l == x
  {
  }

  /** The whole loop from state `st`, including the insertion at end of file. */
  function Rewrite(lines: seq<string>, st: RewriteState, tok: string, exp: string): (r: seq<string>)
    ensures forall l :: l in r ==> l in lines || l == tok || l == exp
    decreases |lines|
  {
    if |lines| == 0 then (if st.inAuth then Missing(st, tok, exp) else [])
    else
      var step := StepLine(lines[0], st, tok, exp);
      var rest := Rewrite(lines[1..], step.next, tok, exp);
      assert forall l :: l in lines[1..] ==> l in lines;
      step.emitted + rest
  }

  predicate HasAuthHeader(lines: seq<string>) {
    exists i :: 0 <= i < |lines| && IsAuthHeader(lines[i])
  }

  /** One step of the loop: the first line's output, then the rewrite of the rest from
      the state that line leaves. */
  lemma RewriteUnfold(lines: seq<string>, st: RewriteState, tok: string, exp: string)
    requires |lines| > 0
    ensures Rewrite(lines, st, tok, exp)
      == StepLine(lines[0], st, tok, exp).emitted + Rewrite(lines[1..], StepLine(lines[0], st, tok, exp).next, tok, exp)
  {
  }

  /** Outside any `[auth]` section a non-header line is copied and nothing changes. */
  lemma StepOutsideAuth(line: string, tok: string, exp: string)
    requires !IsAuthHeader(line)
    ensures StepLine(line, Start, tok, exp) == Step([line], Start)
  {
  }

  /** Leaving the `[auth]` section at the next header writes the owed key lines just
      before that header, and nothing is owed afterwards. */
  lemma OwedKeysPrecedeNextHeader(line: string, st: RewriteState, tok: string, exp: string)
    requires st.inAuth && IsHeader(line) && !IsAuthHeader(line)
    ensures StepLine(line, st, tok, exp) == Step(Missing(st, tok, exp) + [line], RewriteState(false, true, true))
  {
  }

  /** A section without key lines gets both, between its last line and the next header. */
  lemma {:induction false} SectionClosedBeforeNextHeader(auth: string, other: string, next: string, tok: string, exp: string)
    requires IsAuthHeader(auth)
    requires !IsHeader(other) && !IsKeyLine(other)
    requires IsHeader(next) && !IsAuthHeader(next)
    ensures Rewrite([auth, other, next], Start, tok, exp) == [auth, other, tok, exp, next]
  {
    var s1 := RewriteState(true, false, false);
    var tail := Rewrite([other, next], s1, tok, exp);
    assert tail == [other, tok, exp, next] by { SectionTail(other, next, s1, tok, exp); }
    assert Rewrite([auth] + [other, next], Start, tok, exp) == [auth] + tail by { AuthHeaderOpens(auth, [other, next], tok, exp); }
    assert [auth, other, next] == [auth] + [other, next];
    assert [auth] + [other, tok, exp, next] == [auth, other, tok, exp, next];
  }

  /** Inside a fresh section, an ordinary line and then a header give the line, the owed keys and the header. */
  lemma SectionTail(other: string, next: string, st: RewriteState, tok: string, exp: string)
    requires st.inAuth && !st.seenToken && !st.seenExp
    requires !IsHeader(other) && !IsKeyLine(other)
    requires IsHeader(next) && !IsAuthHeader(next)
    ensures Rewrite([other, next], st, tok, exp) == [other, tok, exp, next]
  {
    var last := Rewrite([next], st, tok, exp);
    assert last == [tok, exp, next] by { HeaderClosesSection(next, st, tok, exp); }
    assert Rewrite([other] + [next], st, tok, exp) == [other] + last by { PlainLineKept(other, [next], st, tok, exp); }
    assert [other, next] == [other] + [next];
    assert [other] + [tok, exp, next] == [other, tok, exp, next];
  }

  /** The `[auth]` header is copied and opens the section. */
  lemma AuthHeaderOpens(auth: string, rest: seq<string>, tok: string, exp: string)
    requires IsAuthHeader(auth)
    ensures Rewrite([auth] + rest, Start, tok, exp) == [auth] + Rewrite(rest, RewriteState(true, false, false), tok, exp)
  {
    RewriteUnfold([auth] + rest, Start, tok, exp);
    assert ([auth] + rest)[1..] == rest;
  }

  /** An ordinary line is copied and leaves the state as it was. */
  lemma PlainLineKept(line: string, rest: seq<string>, st: RewriteState, tok: string, exp: string)
    requires !IsHeader(line) && !IsKeyLine(line)
    ensures Rewrite([line] + rest, st, tok, exp) == [line] + Rewrite(rest, st, tok, exp)
  {
    PlainLineCopied(line, st, tok, exp);
    RewriteUnfold([line] + rest, st, tok, exp);
    assert ([line] + rest)[1..] == rest;
  }

  /** A header that ends a section owing both keys, as the last line, is preceded by them. */
  lemma HeaderClosesSection(next: string, st: RewriteState, tok: string, exp: string)
    requires st.inAuth && !st.seenToken && !st.seenExp
    requires IsHeader(next) && !IsAuthHeader(next)
    ensures Rewrite([next], st, tok, exp) == [tok, exp, next]
  {
    OwedKeysPrecedeNextHeader(next, st, tok, exp);
    RewriteUnfold([next], st, tok, exp);
    assert [next][1..] == [];
  }

  /** An ordinary line inside the section is copied and the state is kept. */
  lemma PlainLineCopied(line: string, st: RewriteState, tok: string, exp: string)
    requires !IsHeader(line) && !IsKeyLine(line)
    ensures StepLine(line, st, tok, exp) == Step([line], st)
  {
    assert !IsAuthHeader(line) by { AuthHeaderIsHeader(line); }
  }

  lemma AuthHeaderIsHeader(line: string)
    ensures IsAuthHeader(line) ==> IsHeader(line)
  {
    if IsAuthHeader(line) {
      assert Strip(line)[..1] == Strip(line)[..6][..1];
    }
  }

  lemma NoAuthHeaderInTail(lines: seq<string>)
    requires |lines| > 0 && !HasAuthHeader(lines)
    ensures !HasAuthHeader(lines[1..]) && !IsAuthHeader(lines[0])
  {
    var rest := lines[1..];
    forall i | 0 <= i < |rest| ensures !IsAuthHeader(rest[i]) {
      assert rest[i] == lines[i + 1];
    }
  }

  /** A file without an `[auth]` line keeps every line, in order (an absent file stays empty). */
  lemma {:induction false} NoAuthSectionUnchanged(lines: seq<string>, tok: string, exp: string)
    requires !HasAuthHeader(lines)
    ensures Rewrite(lines, Start, tok, exp) == lines
    decreases |lines|
  {
    if |lines| > 0 {
      NoAuthHeaderInTail(lines);
      StepOutsideAuth(lines[0], tok, exp);
      RewriteUnfold(lines, Start, tok, exp);
      NoAuthSectionUnchanged(lines[1..], tok, exp);
      assert lines == [lines[0]] + lines[1..];
    }
  }

  /** What one step does to the owed key lines: a key still owed is either emitted or
      still owed afterwards; a step inside or opening the section either stays in it or
      has emitted every owed key; a step outside it changes nothing. */
  lemma StepOwes(line: string, st: RewriteState, tok: string, exp: string)
    ensures var step := StepLine(line, st, tok, exp);
      && (!st.seenToken ==> tok in step.emitted || !step.next.seenToken)
      && (!st.seenExp ==> exp in step.emitted || !step.next.seenExp)
      && ((st.inAuth || IsAuthHeader(line)) && !step.next.inAuth ==>
            (!st.seenToken ==> tok in step.emitted) && (!st.seenExp ==> exp in step.emitted))
      && (!st.inAuth && !IsAuthHeader(line) ==> step.next == st)
  {
    var step := StepLine(line, st, tok, exp);
    if IsAuthHeader(line) {
      assert step == Step([line], st.(inAuth := true));
    } else {
      var leaving := st.inAuth && IsHeader(line);
      var pre := if leaving then Missing(st, tok, exp) else [];
      var st1 := if leaving then RewriteState(false, true, true) else st;
      var isToken := st1.inAuth && IsTokenKey(line);
      var isExpiry := !isToken && st1.inAuth && IsExpiryKey(line);
      var out := if isToken then tok else if isExpiry then exp else line;
      var next := if isToken then st1.(seenToken := true) else if isExpiry then st1.(seenExp := true) else st1;
      assert step == Step(pre + [out], next);
      InEither(pre, [out], tok);
      InEither(pre, [out], exp);
      if !leaving {
        assert st1 == st;
      }
    }
  }

  /** Once an `[auth]` section is open, or will be, both key lines end up in the output. */
  lemma {:induction false} KeysWritten(lines: seq<string>, st: RewriteState, tok: string, exp: string)
    requires st.inAuth || HasAuthHeader(lines)
    ensures !st.seenToken ==> tok in Rewrite(lines, st, tok, exp)
    ensures !st.seenExp ==> exp in Rewrite(lines, st, tok, exp)
    decreases |lines|
  {
    if |lines| > 0 {
      var line := lines[0];
      var rest := lines[1..];
      var step := StepLine(line, st, tok, exp);
      var tail := Rewrite(rest, step.next, tok, exp);
      RewriteUnfold(lines, st, tok, exp);
      StepOwes(line, st, tok, exp);
      if !IsAuthHeader(line) && !st.inAuth {
        var i :| 0 <= i < |lines| && IsAuthHeader(lines[i]);
        assert i > 0 && IsAuthHeader(rest[i - 1]);
        KeysWritten(rest, step.next, tok, exp);
      } else if step.next.inAuth {
        KeysWritten(rest, step.next, tok, exp);
      }
      InEither(step.emitted, tail, tok);
      InEither(step.emitted, tail, exp);
    }
  }

  lemma InEither(a: seq<string>, b: seq<string>, x: string)
    ensures x in a + b <==> x in a || x in b
  {
  }

  predicate IsKeyLine(line: string) { IsTokenKey(line) || IsExpiryKey(line) }

  /** The lines that are neither `access_token` nor `expires_at` keys. */
  function OtherLines(lines: seq<string>): (r: seq<string>)
    ensures |r| <= |lines|
  {
    Drop(lines, IsKeyLine)
  }

  lemma OtherLinesAppend(a: seq<string>, b: seq<string>)
    ensures OtherLines(a + b) == OtherLines(a) + OtherLines(b)
  {
    DropAppend(a, b, IsKeyLine);
  }

  lemma OtherLinesOfKeys(ks: seq<string>, tok: string, exp: string)
    requires IsTokenKey(tok) && IsExpiryKey(exp)
    requires forall l :: l in ks ==> l == tok || l == exp
    ensures OtherLines(ks) == []
    decreases |ks|
  {
    if |ks| > 0 {
      assert ks[0] in ks;
      assert forall l :: l in ks[1..] ==> l in ks;
      OtherLinesOfKeys(ks[1..], tok, exp);
    }
  }

  /** Each step emits, apart from key lines, exactly the line it read. */
  lemma StepKeepsOtherLines(line: string, st: RewriteState, tok: string, exp: string)
    requires IsTokenKey(tok) && IsExpiryKey(exp)
    ensures OtherLines(StepLine(line, st, tok, exp).emitted) == OtherLines([line])
  {
    var step := StepLine(line, st, tok, exp);
    if IsAuthHeader(line) {
    } else {
      var leaving := st.inAuth && IsHeader(line);
      var pre := if leaving then Missing(st, tok, exp) else [];
      var st1 := if leaving then RewriteState(false, true, true) else st;
      OtherLinesOfKeys(pre, tok, exp);
      if st1.inAuth && IsTokenKey(line) {
        OtherLinesAppend(pre, [tok]);
      } else if st1.inAuth && IsExpiryKey(line) {
        OtherLinesAppend(pre, [exp]);
      } else {
        OtherLinesAppend(pre, [line]);
      }
    }
  }

  /** Apart from key lines, the rewrite copies every line verbatim and in order:
      it only replaces, inserts or keeps `access_token` and `expires_at` lines. */
  lemma {:induction false} RewriteKeepsOtherLines(lines: seq<string>, st: RewriteState, tok: string, exp: string)
    requires IsTokenKey(tok) && IsExpiryKey(exp)
    ensures OtherLines(Rewrite(lines, st, tok, exp)) == OtherLines(lines)
    decreases |lines|
  {
    if |lines| == 0 {
      if st.inAuth { OtherLinesOfKeys(Missing(st, tok, exp), tok, exp); }
    } else {
      var step := StepLine(lines[0], st, tok, exp);
      var rest := lines[1..];
      var tail := Rewrite(rest, step.next, tok, exp);
      RewriteUnfold(lines, st, tok, exp);
      StepKeepsOtherLines(lines[0], st, tok, exp);
      RewriteKeepsOtherLines(rest, step.next, tok, exp);
      OtherLinesGlue(Rewrite(lines, st, tok, exp), step.emitted, tail, lines);
    }
  }

  lemma OtherLinesGlue(out: seq<string>, e: seq<string>, t: seq<string>, lines: seq<string>)
    requires |lines| > 0 && out == e + t
    requires OtherLines(e) == OtherLines([lines[0]]) && OtherLines(t) == OtherLines(lines[1..])
    ensures OtherLines(out) == OtherLines(lines)
  {
    OtherLinesAppend(e, t);
    OtherLinesAppend([lines[0]], lines[1..]);
    assert lines == [lines[0]] + lines[1..];
  }

  // ------------------------------------------------------------ sections of the file

  /** How the loop's section tracking sees a line. */
  datatype LineKind = AuthHeader | OtherHeader | Body

  function KindOf(line: string): (r: LineKind)
    ensures r == AuthHeader <==> IsAuthHeader(line)
    ensures r == Body <==> !IsHeader(line)
  {
    AuthHeaderIsHeader(line);
    if IsAuthHeader(line) then AuthHeader else if IsHeader(line) then OtherHeader else Body
  }

  /** Whether a line lies in an `[auth]` section or elsewhere in the file. */
  datatype Where = InAuth | Elsewhere

  function At(inAuth: bool): (r: Where)
    ensures r == InAuth <==> inAuth
  {
    if inAuth then InAuth else Elsewhere
  }

  /** Where the next line lies: an `[auth]` header opens a section and any other header closes it. */
  function NextWhere(line: string, w: Where): Where {
    match KindOf(line)
    case AuthHeader => InAuth
    case OtherHeader => Elsewhere
    case Body => w
  }

  /** A line outside every `[auth]` section: another header, or a body line elsewhere. */
  predicate OutsideLine(line: string, w: Where) {
    KindOf(line) == OtherHeader || (KindOf(line) == Body && w == Elsewhere)
  }

  /** A body line of an `[auth]` section. */
  predicate InsideLine(line: string, w: Where) {
    KindOf(line) == Body && w == InAuth
  }

  /** Where reading `lines` from `w` ends. */
  function WhereAfter(lines: seq<string>, w: Where, next: (string, Where) -> Where): Where
    decreases |lines|
  {
    if |lines| == 0 then w else WhereAfter(lines[1..], next(lines[0], w), next)
  }

  /** The lines that `keep` selects, in order, each judged by where it lies. */
  function Kept(lines: seq<string>, w: Where, keep: (string, Where) -> bool, next: (string, Where) -> Where): (r: seq<string>)
    decreases |lines|
  {
    if |lines| == 0 then []
    else (if keep(lines[0], w) then [lines[0]] else []) + Kept(lines[1..], next(lines[0], w), keep, next)
  }

  /** The lines outside every `[auth]` section of a file, in order; the `[auth]` headers
      themselves belong neither here nor to `Inside`. */
  function Outside(lines: seq<string>): seq<string> {
    Kept(lines, Elsewhere, OutsideLine, NextWhere)
  }

  /** The body lines of the `[auth]` sections of a file, in order. */
  function Inside(lines: seq<string>): seq<string> {
    Kept(lines, Elsewhere, InsideLine, NextWhere)
  }

  /** Every `access_token` or `expires_at` line among `ls` is one of the two new ones. */
  predicate OnlyNewKeys(ls: seq<string>, tok: string, exp: string) {
    forall l :: l in ls && IsKeyLine(l) ==> l == tok || l == exp
  }

  lemma {:induction false} KeptAppend(a: seq<string>, b: seq<string>, w: Where, keep: (string, Where) -> bool, next: (string, Where) -> Where)
    ensures Kept(a + b, w, keep, next) == Kept(a, w, keep, next) + Kept(b, WhereAfter(a, w, next), keep, next)
    decreases |a|
  {
    if |a| == 0 {
      assert a + b == b;
    } else {
      var h := if keep(a[0], w) then [a[0]] else [];
      assert (a + b)[0] == a[0];
      assert (a + b)[1..] == a[1..] + b;
      assert Kept(a + b, w, keep, next) == h + Kept(a[1..] + b, next(a[0], w), keep, next);
      KeptAppend(a[1..], b, next(a[0], w), keep, next);
      assert Kept(a, w, keep, next) == h + Kept(a[1..], next(a[0], w), keep, next);
    }
  }

  lemma {:induction false} WhereAfterAppend(a: seq<string>, b: seq<string>, w: Where, next: (string, Where) -> Where)
    ensures WhereAfter(a + b, w, next) == WhereAfter(b, WhereAfter(a, w, next), next)
    decreases |a|
  {
    if |a| == 0 {
      assert a + b == b;
    } else {
      assert (a + b)[0] == a[0];
      assert (a + b)[1..] == a[1..] + b;
      WhereAfterAppend(a[1..], b, next(a[0], w), next);
    }
  }

  lemma OneLineKept(line: string, w: Where, keep: (string, Where) -> bool, next: (string, Where) -> Where)
    ensures Kept([line], w, keep, next) == (if keep(line, w) then [line] else [])
    ensures WhereAfter([line], w, next) == next(line, w)
  {
    assert [line][1..] == [];
  }

  /** `access_token` and `expires_at` lines are not headers. */
  lemma KeyLineNotHeader(line: string)
    requires IsKeyLine(line)
    ensures KindOf(line) == Body
  {
    var s := Strip(line);
    if IsTokenKey(line) {
      assert s[0] == s[..12][0] == 'a';
    } else {
      assert s[0] == s[..10][0] == 'e';
    }
    assert !StartsWith(s, "[") by {
      if |s| >= 1 { assert s[..1][0] == s[0]; }
    }
  }

  /** Lines that `keep` selects and that do not move the section are all kept. */
  lemma {:induction false} AllKept(ks: seq<string>, w: Where, keep: (string, Where) -> bool, next: (string, Where) -> Where)
    requires forall l :: l in ks ==> keep(l, w) && next(l, w) == w
    ensures Kept(ks, w, keep, next) == ks
    ensures WhereAfter(ks, w, next) == w
    decreases |ks|
  {
    if |ks| > 0 {
      var rest := ks[1..];
      assert keep(ks[0], w) && next(ks[0], w) == w by { assert ks[0] in ks; }
      assert forall l :: l in rest ==> l in ks;
      AllKept(rest, w, keep, next);
      assert Kept(ks, w, keep, next) == [ks[0]] + rest;
    }
  }

  /** Lines that `keep` rejects and that do not move the section are all dropped. */
  lemma {:induction false} NoneKept(ks: seq<string>, w: Where, keep: (string, Where) -> bool, next: (string, Where) -> Where)
    requires forall l :: l in ks ==> !keep(l, w) && next(l, w) == w
    ensures Kept(ks, w, keep, next) == []
    decreases |ks|
  {
    if |ks| > 0 {
      assert ks[0] in ks;
      assert forall l :: l in ks[1..] ==> l in ks;
      NoneKept(ks[1..], w, keep, next);
    }
  }

  /** A body line read in an `[auth]` section is inside it and keeps it open. */
  lemma BodyInAuth(line: string)
    requires KindOf(line) == Body
    ensures InsideLine(line, InAuth) && !OutsideLine(line, InAuth) && NextWhere(line, InAuth) == InAuth
  {
  }

  /** The owed key lines written into an open section stay inside it. */
  lemma NewKeysStayInside(ks: seq<string>, tok: string, exp: string)
    requires IsKeyLine(tok) && IsKeyLine(exp)
    requires forall l :: l in ks ==> l == tok || l == exp
    ensures Kept(ks, InAuth, OutsideLine, NextWhere) == []
    ensures Kept(ks, InAuth, InsideLine, NextWhere) == ks
    ensures WhereAfter(ks, InAuth, NextWhere) == InAuth
  {
    KeyLineNotHeader(tok);
    KeyLineNotHeader(exp);
    BodyInAuth(tok);
    BodyInAuth(exp);
    AllKept(ks, InAuth, InsideLine, NextWhere);
    NoneKept(ks, InAuth, OutsideLine, NextWhere);
  }

  /** What a step must do for the sections: move between them exactly as the line it read
      does, write outside exactly what that line contributes there, and write inside no
      old key line. */
  predicate RespectsSections(line: string, w: Where, emitted: seq<string>, after: Where, tok: string, exp: string) {
    && after == NextWhere(line, w)
    && WhereAfter(emitted, w, NextWhere) == NextWhere(line, w)
    && Kept(emitted, w, OutsideLine, NextWhere) == Kept([line], w, OutsideLine, NextWhere)
    && OnlyNewKeys(Kept(emitted, w, InsideLine, NextWhere), tok, exp)
  }

  lemma StepSections(line: string, st: RewriteState, tok: string, exp: string)
    requires IsKeyLine(tok) && IsKeyLine(exp)
    ensures var step := StepLine(line, st, tok, exp);
      RespectsSections(line, At(st.inAuth), step.emitted, At(step.next.inAuth), tok, exp)
  {
    var step := StepLine(line, st, tok, exp);
    if IsAuthHeader(line) {
      assert step == Step([line], st.(inAuth := true));
      OpeningSection(line, At(st.inAuth), tok, exp);
    } else if st.inAuth && IsHeader(line) {
      var ks := Missing(st, tok, exp);
      OwedKeysPrecedeNextHeader(line, st, tok, exp);
      LeavingSection(line, ks, tok, exp);
    } else if st.inAuth && IsKeyLine(line) {
      var out := if IsTokenKey(line) then tok else exp;
      KeyLineNotHeader(line);
      assert step.emitted == [out] && step.next.inAuth;
      KeyReplaced(line, out, tok, exp);
    } else {
      assert step == Step([line], st);
      LineCopied(line, At(st.inAuth), tok, exp);
    }
  }

  lemma OpeningSection(line: string, w: Where, tok: string, exp: string)
    requires KindOf(line) == AuthHeader
    ensures RespectsSections(line, w, [line], InAuth, tok, exp)
  {
    OneLineKept(line, w, InsideLine, NextWhere);
    OneLineKept(line, w, OutsideLine, NextWhere);
  }

  lemma LeavingSection(line: string, ks: seq<string>, tok: string, exp: string)
    requires IsKeyLine(tok) && IsKeyLine(exp)
    requires forall l :: l in ks ==> l == tok || l == exp
    requires KindOf(line) == OtherHeader
    ensures RespectsSections(line, InAuth, ks + [line], Elsewhere, tok, exp)
  {
    NewKeysStayInside(ks, tok, exp);
    KeptThenOne(ks, line, InAuth, OutsideLine, NextWhere);
    KeptThenOne(ks, line, InAuth, InsideLine, NextWhere);
    OneLineKept(line, InAuth, OutsideLine, NextWhere);
    OneLineKept(line, InAuth, InsideLine, NextWhere);
    assert ks + [] == ks;
    OnlyNewKeysOf(ks, tok, exp);
  }

  /** After lines that leave the section where it was, one more line is judged there. */
  lemma KeptThenOne(ks: seq<string>, x: string, w: Where, keep: (string, Where) -> bool, next: (string, Where) -> Where)
    requires WhereAfter(ks, w, next) == w
    ensures Kept(ks + [x], w, keep, next) == Kept(ks, w, keep, next) + Kept([x], w, keep, next)
    ensures WhereAfter(ks + [x], w, next) == next(x, w)
  {
    KeptAppend(ks, [x], w, keep, next);
    WhereAfterAppend(ks, [x], w, next);
    OneLineKept(x, w, keep, next);
  }

  lemma OnlyNewKeysOf(ks: seq<string>, tok: string, exp: string)
    requires forall l :: l in ks ==> l == tok || l == exp
    ensures OnlyNewKeys(ks, tok, exp)
  {
  }

  lemma KeyReplaced(line: string, out: string, tok: string, exp: string)
    requires IsKeyLine(tok) && IsKeyLine(exp)
    requires IsKeyLine(line) && (out == tok || out == exp)
    ensures RespectsSections(line, InAuth, [out], InAuth, tok, exp)
  {
    KeyLineNotHeader(line);
    KeyLineNotHeader(out);
    BodyInAuth(line);
    BodyInAuth(out);
    OneLineKept(line, InAuth, OutsideLine, NextWhere);
    OneLineKept(out, InAuth, OutsideLine, NextWhere);
    OneLineKept(out, InAuth, InsideLine, NextWhere);
  }

  lemma LineCopied(line: string, w: Where, tok: string, exp: string)
    requires KindOf(line) != AuthHeader
    requires w == InAuth ==> KindOf(line) == Body && !IsKeyLine(line)
    ensures RespectsSections(line, w, [line], w, tok, exp)
  {
    OneLineKept(line, w, InsideLine, NextWhere);
    OneLineKept(line, w, OutsideLine, NextWhere);
  }

  /** Gluing a step's output onto the rest keeps what both halves keep. */
  lemma KeptConcat(e: seq<string>, t: seq<string>, x: string, r: seq<string>, w: Where,
                   keep: (string, Where) -> bool, next: (string, Where) -> Where)
    requires Kept(e, w, keep, next) == Kept([x], w, keep, next)
    requires WhereAfter(e, w, next) == next(x, w)
    requires Kept(t, next(x, w), keep, next) == Kept(r, next(x, w), keep, next)
    ensures Kept(e + t, w, keep, next) == Kept([x] + r, w, keep, next)
  {
    KeptAppend(e, t, w, keep, next);
    KeptAppend([x], r, w, keep, next);
    OneLineKept(x, w, keep, next);
  }

  /** Apart from the `[auth]` section bodies, the rewrite copies the file exactly: the
      same lines in the same order, key lines of other sections included. */
  lemma {:induction false} RewriteKeepsOutside(lines: seq<string>, st: RewriteState, tok: string, exp: string)
    requires IsKeyLine(tok) && IsKeyLine(exp)
    ensures Kept(Rewrite(lines, st, tok, exp), At(st.inAuth), OutsideLine, NextWhere)
         == Kept(lines, At(st.inAuth), OutsideLine, NextWhere)
    decreases |lines|
  {
    if |lines| == 0 {
      if st.inAuth { NewKeysStayInside(Missing(st, tok, exp), tok, exp); }
    } else {
      var step := StepLine(lines[0], st, tok, exp);
      var tail := Rewrite(lines[1..], step.next, tok, exp);
      RewriteUnfold(lines, st, tok, exp);
      StepSections(lines[0], st, tok, exp);
      RewriteKeepsOutside(lines[1..], step.next, tok, exp);
      OutsideGlue(Rewrite(lines, st, tok, exp), step.emitted, tail, lines, At(st.inAuth), At(step.next.inAuth), tok, exp);
    }
  }

  /** Gluing: a step that respects the sections, followed by a tail that keeps the outside
      of the remaining lines, keeps the outside of all of them. */
  lemma OutsideGlue(out: seq<string>, e: seq<string>, t: seq<string>, lines: seq<string>, w: Where, w2: Where, tok: string, exp: string)
    requires |lines| > 0 && out == e + t
    requires RespectsSections(lines[0], w, e, w2, tok, exp)
    requires Kept(t, w2, OutsideLine, NextWhere) == Kept(lines[1..], w2, OutsideLine, NextWhere)
    ensures Kept(out, w, OutsideLine, NextWhere) == Kept(lines, w, OutsideLine, NextWhere)
  {
    KeptConcat(e, t, lines[0], lines[1..], w, OutsideLine, NextWhere);
    assert lines == [lines[0]] + lines[1..];
  }

  /** Inside the `[auth]` section bodies of the rewritten file, every `access_token` or
      `expires_at` line is one of the two new ones: no old key line survives there. */
  lemma {:induction false} RewriteLeavesOnlyNewKeys(lines: seq<string>, st: RewriteState, tok: string, exp: string)
    requires IsKeyLine(tok) && IsKeyLine(exp)
    ensures OnlyNewKeys(Kept(Rewrite(lines, st, tok, exp), At(st.inAuth), InsideLine, NextWhere), tok, exp)
    decreases |lines|
  {
    if |lines| == 0 {
      if st.inAuth { NewKeysStayInside(Missing(st, tok, exp), tok, exp); }
    } else {
      var step := StepLine(lines[0], st, tok, exp);
      var rest := lines[1..];
      var tail := Rewrite(rest, step.next, tok, exp);
      RewriteUnfold(lines, st, tok, exp);
      StepSections(lines[0], st, tok, exp);
      KeptAppend(step.emitted, tail, At(st.inAuth), InsideLine, NextWhere);
      RewriteLeavesOnlyNewKeys(rest, step.next, tok, exp);
      OnlyNewKeysAppend(Kept(step.emitted, At(st.inAuth), InsideLine, NextWhere),
        Kept(tail, At(step.next.inAuth), InsideLine, NextWhere), tok, exp);
    }
  }

  lemma OnlyNewKeysAppend(a: seq<string>, b: seq<string>, tok: string, exp: string)
    requires OnlyNewKeys(a, tok, exp) && OnlyNewKeys(b, tok, exp)
    ensures OnlyNewKeys(a + b, tok, exp)
  {
  }

  // ------------------------------------------------------------ how often the new keys are written

  /** The new token and expiry lines are different lines. */
  lemma NewKeysDiffer(tok: string, exp: string)
    requires IsTokenKey(tok) && IsExpiryKey(exp)
    ensures tok != exp
  {
    assert Strip(tok)[0] == Strip(tok)[..12][0] == 'a';
    assert Strip(exp)[0] == Strip(exp)[..10][0] == 'e';
  }

  /** A line that is not a key line: one step writes each new key once if it closes a
      section that still owes it, and never otherwise. */
  lemma StepCounts(line: string, st: RewriteState, tok: string, exp: string)
    requires IsTokenKey(tok) && IsExpiryKey(exp)
    requires !IsKeyLine(line)
    ensures var step := StepLine(line, st, tok, exp);
      var closing := st.inAuth && IsHeader(line) && !IsAuthHeader(line);
      && multiset(step.emitted)[tok] == (if closing && !st.seenToken then 1 else 0)
      && multiset(step.emitted)[exp] == (if closing && !st.seenExp then 1 else 0)
      && step.next == (if IsAuthHeader(line) then st.(inAuth := true) else if closing then RewriteState(false, true, true) else st)
  {
    NewKeysDiffer(tok, exp);
    assert line != tok && line != exp;
    if IsAuthHeader(line) {
      assert StepLine(line, st, tok, exp) == Step([line], st.(inAuth := true));
    } else if st.inAuth && IsHeader(line) {
      OwedKeysPrecedeNextHeader(line, st, tok, exp);
      MissingCounts(st, tok, exp);
    } else {
      assert StepLine(line, st, tok, exp) == Step([line], st);
    }
  }

  lemma MissingCounts(st: RewriteState, tok: string, exp: string)
    requires tok != exp
    ensures multiset(Missing(st, tok, exp))[tok] == if st.seenToken then 0 else 1
    ensures multiset(Missing(st, tok, exp))[exp] == if st.seenExp then 0 else 1
  {
  }

  lemma HasAuthHeaderUnfold(lines: seq<string>)
    requires |lines| > 0
    ensures HasAuthHeader(lines) <==> IsAuthHeader(lines[0]) || HasAuthHeader(lines[1..])
  {
    SomeLineUnfold(lines, IsAuthHeader);
  }

  lemma SomeLineUnfold(lines: seq<string>, p: string -> bool)
    requires |lines| > 0
    ensures (exists i :: 0 <= i < |lines| && p(lines[i]))
        <==> p(lines[0]) || exists i :: 0 <= i < |lines[1..]| && p(lines[1..][i])
  {
    if exists i :: 0 <= i < |lines| && p(lines[i]) {
      var i :| 0 <= i < |lines| && p(lines[i]);
      if i > 0 { assert p(lines[1..][i - 1]); }
    }
    if exists i :: 0 <= i < |lines[1..]| && p(lines[1..][i]) {
      var i :| 0 <= i < |lines[1..]| && p(lines[1..][i]);
      assert p(lines[i + 1]);
    }
  }

  /** When the file holds no key lines at all, each new key line is written exactly once
      if an `[auth]` section is open or will be opened while the key is still owed, and
      not at all otherwise. (With key lines present it can be written more than once:
      see `DuplicateKeysBothReplaced`.) */
  lemma {:induction false} NewKeysWrittenOnce(lines: seq<string>, st: RewriteState, tok: string, exp: string)
    requires IsTokenKey(tok) && IsExpiryKey(exp)
    requires NoKeyLines(lines)
    ensures var out := Rewrite(lines, st, tok, exp);
      var section := st.inAuth || HasAuthHeader(lines);
      && multiset(out)[tok] == (if section && !st.seenToken then 1 else 0)
      && multiset(out)[exp] == (if section && !st.seenExp then 1 else 0)
    decreases |lines|
  {
    if |lines| == 0 {
      NewKeysDiffer(tok, exp);
      MissingCounts(st, tok, exp);
    } else {
      var step := StepLine(lines[0], st, tok, exp);
      var tail := Rewrite(lines[1..], step.next, tok, exp);
      NoKeyLinesTail(lines);
      StepCounts(lines[0], st, tok, exp);
      HasAuthHeaderUnfold(lines);
      NewKeysWrittenOnce(lines[1..], step.next, tok, exp);
      assert multiset(Rewrite(lines, st, tok, exp)) == multiset(step.emitted) + multiset(tail) by {
        RewriteUnfold(lines, st, tok, exp);
      }
    }
  }

  predicate NoKeyLines(lines: seq<string>) {
    forall i :: 0 <= i < |lines| ==> !IsKeyLine(lines[i])
  }

  lemma NoKeyLinesTail(lines: seq<string>)
    requires |lines| > 0 && NoKeyLines(lines)
    ensures !IsKeyLine(lines[0]) && NoKeyLines(lines[1..])
  {
    var rest := lines[1..];
    forall i | 0 <= i < |rest| ensures !IsKeyLine(rest[i]) {
      assert rest[i] == lines[i + 1];
    }
  }

  /** Two `access_token` lines in one `[auth]` section are both replaced, so the new
      token line then appears twice. */
  lemma DuplicateKeysBothReplaced(auth: string, k1: string, k2: string, tok: string, exp: string)
    requires IsAuthHeader(auth) && IsTokenKey(k1) && IsTokenKey(k2)
    requires IsTokenKey(tok) && IsExpiryKey(exp)
    ensures Rewrite([auth, k1, k2], Start, tok, exp) == [auth, tok, tok, exp]
    ensures multiset(Rewrite([auth, k1, k2], Start, tok, exp))[tok] == 2
  {
    TwoTokenKeys(auth, k1, k2, tok, exp);
    KeyLineNotHeader(tok);
    NewKeysDiffer(tok, exp);
    TwiceAmongOthers(auth, tok, exp);
  }

  lemma TwoTokenKeys(auth: string, k1: string, k2: string, tok: string, exp: string)
    requires IsAuthHeader(auth) && IsTokenKey(k1) && IsTokenKey(k2)
    ensures Rewrite([auth, k1, k2], Start, tok, exp) == [auth, tok, tok, exp]
  {
    TokenKeysAtEnd(k1, k2, tok, exp);
    AuthHeaderOpens(auth, [k1, k2], tok, exp);
    assert [auth, k1, k2] == [auth] + [k1, k2];
  }

  lemma TokenKeysAtEnd(k1: string, k2: string, tok: string, exp: string)
    requires IsTokenKey(k1) && IsTokenKey(k2)
    ensures Rewrite([k1, k2], RewriteState(true, false, false), tok, exp) == [tok, tok, exp]
  {
    TokenKeyAtEnd(k2, RewriteState(true, true, false), tok, exp);
    TokenKeyReplaced(k1, [k2], RewriteState(true, false, false), tok, exp);
    assert [k1, k2] == [k1] + [k2];
  }

  lemma TokenKeyAtEnd(k: string, st: RewriteState, tok: string, exp: string)
    requires st.inAuth && st.seenToken && !st.seenExp && IsTokenKey(k)
    ensures Rewrite([k], st, tok, exp) == [tok, exp]
  {
    TokenKeyReplaced(k, [], st, tok, exp);
    assert [k] == [k] + [];
    assert st.(seenToken := true) == st;
  }

  lemma TwiceAmongOthers(a: string, x: string, b: string)
    requires a != x && b != x
    ensures multiset([a, x, x, b])[x] == 2
  {
    assert multiset([a, x, x, b]) == multiset{a} + multiset{x, x} + multiset{b};
  }

  /** Inside the section an `access_token` line is replaced by the new one. */
  lemma TokenKeyReplaced(k: string, rest: seq<string>, st: RewriteState, tok: string, exp: string)
    requires st.inAuth && IsTokenKey(k)
    ensures Rewrite([k] + rest, st, tok, exp) == [tok] + Rewrite(rest, st.(seenToken := true), tok, exp)
  {
    KeyLineNotHeader(k);
    assert StepLine(k, st, tok, exp) == Step([tok], st.(seenToken := true));
    RewriteUnfold([k] + rest, st, tok, exp);
    assert ([k] + rest)[1..] == rest;
  }

  lemma TokenLineIsKey(bearer: string)
    ensures IsTokenKey(TokenLine(bearer))
  {
    var t := TokenLine(bearer);
    assert t[0] == 'a' && t[|t| - 1] == '"';
    StripUntouched(t);
    assert t[..12] == "access_token";
  }

  lemma ExpiryLineIsKey(exp: real)
    ensures IsExpiryKey(ExpiryLine(exp))
  {
    var e := ExpiryLine(exp);
    var digits := IntToString(Trunc(exp));
    assert '0' <= digits[|digits| - 1] <= '9';
    assert e[0] == 'e' && e[|e| - 1] == digits[|digits| - 1];
    StripUntouched(e);
    assert e[..10] == "expires_at";
  }

  /** `_save_token` on the fallback path: the rewritten file lines and the updated keys. */
  function SaveToken(keys: KisKeys, raw: string, expiresIn: Option<int>, now: real, lines: seq<string>): (r: (KisKeys, seq<string>))
    ensures r.0.accessToken == Some(NormalizeBearer(raw))
    ensures r.0.expiresAt == Some(Expiry(now, expiresIn))
    ensures r.0.appkey == keys.appkey && r.0.appsecret == keys.appsecret && r.0.path == keys.path && r.0.isVts == keys.isVts
    ensures HasAuthHeader(lines) ==> TokenLine(NormalizeBearer(raw)) in r.1 && ExpiryLine(Expiry(now, expiresIn)) in r.1
    ensures !HasAuthHeader(lines) ==> r.1 == lines
    ensures OtherLines(r.1) == OtherLines(lines)
    ensures Outside(r.1) == Outside(lines)
    ensures OnlyNewKeys(Inside(r.1), TokenLine(NormalizeBearer(raw)), ExpiryLine(Expiry(now, expiresIn)))
  {
    var bearer := NormalizeBearer(raw);
    var exp := Expiry(now, expiresIn);
    var out := Rewrite(lines, Start, TokenLine(bearer), ExpiryLine(exp));
    assert HasAuthHeader(lines) ==> TokenLine(bearer) in out && ExpiryLine(exp) in out by {
      if HasAuthHeader(lines) { KeysWritten(lines, Start, TokenLine(bearer), ExpiryLine(exp)); }
    }
    assert !HasAuthHeader(lines) ==> out == lines by {
      if !HasAuthHeader(lines) { NoAuthSectionUnchanged(lines, TokenLine(bearer), ExpiryLine(exp)); }
    }
    TokenLineIsKey(bearer);
    ExpiryLineIsKey(exp);
    RewriteKeepsOtherLines(lines, Start, TokenLine(bearer), ExpiryLine(exp));
    RewriteKeepsOutside(lines, Start, TokenLine(bearer), ExpiryLine(exp));
    RewriteLeavesOnlyNewKeys(lines, Start, TokenLine(bearer), ExpiryLine(exp));
    (keys.(accessToken := Some(bearer), expiresAt := Some(exp)), out)
  }

  /** `_need_new_token`. */
  function NeedNewToken(keys: KisKeys, now: real): (r: bool)
    ensures !r <==> (keys.accessToken.Some? && StartsWith(keys.accessToken.value, BearerPrefix)
      && keys.expiresAt.Some? && keys.expiresAt.value != 0.0 && now < keys.expiresAt.value)
  {
    if keys.accessToken.None? || keys.accessToken.value == "" || !StartsWith(keys.accessToken.value, BearerPrefix) then true
    else if keys.expiresAt.Some? && keys.expiresAt.value != 0.0 && now < keys.expiresAt.value then false
    else true
  }

  /** A freshly saved token is good until its expiry and needs renewing from then on. */
  lemma SavedTokenValidUntilExpiry(keys: KisKeys, raw: string, expiresIn: Option<int>, now: real, lines: seq<string>, t: real)
    requires Expiry(now, expiresIn) != 0.0
    ensures !NeedNewToken(SaveToken(keys, raw, expiresIn, now, lines).0, t) <==> t < Expiry(now, expiresIn)
  {
  }

  /** The token endpoint's reply: `access_token`/`accessToken`, `expires_in`/`expiresIn`
      (None for absent or falsy values). */
  datatype TokenReply = TokenReply(accessToken: Option<string>, accessTokenAlt: Option<string>,
                                   expiresIn: Option<int>, expiresInAlt: Option<int>)

  function FirstTruthy(a: Option<string>, b: Option<string>): (r: string)
    ensures r == "" ==> (a.None? || a.value == "") && (b.None? || b.value == "")
  {
    if a.Some? && a.value != "" then a.value else if b.Some? && b.value != "" then b.value else ""
  }

  /** `int(expires_in or expiresIn or 3600)`. */
  function ReplyLifetime(r: TokenReply): (s: int)
    ensures s != 0
  {
    if r.expiresIn.Some? && r.expiresIn.value != 0 then r.expiresIn.value
    else if r.expiresInAlt.Some? && r.expiresInAlt.value != 0 then r.expiresInAlt.value
    else 3600
  }

  /** `issue_token`; `reply` is None when the request or its decoding failed. */
  function IssueToken(keys: KisKeys, reply: Option<TokenReply>, now: real, lines: seq<string>): (r: (bool, KisKeys, seq<string>))
    ensures r.0 <==> reply.Some? && FirstTruthy(reply.value.accessToken, reply.value.accessTokenAlt) != ""
    ensures !r.0 ==> r.1 == keys && r.2 == lines
    ensures r.0 ==> r.1.accessToken == Some(NormalizeBearer(FirstTruthy(reply.value.accessToken, reply.value.accessTokenAlt)))
    ensures r.0 ==> r.1.expiresAt == Some(now + ReplyLifetime(reply.value) as real - 30.0)
    ensures r.0 ==> r.1.appkey == keys.appkey && r.1.appsecret == keys.appsecret && r.1.path == keys.path && r.1.isVts == keys.isVts
    ensures r.0 ==> (r.1, r.2) == SaveToken(keys, FirstTruthy(reply.value.accessToken, reply.value.accessTokenAlt), Some(ReplyLifetime(reply.value)), now, lines)
  {
    if reply.None? then (false, keys, lines)
    else
      var raw := FirstTruthy(reply.value.accessToken, reply.value.accessTokenAlt);
      if raw == "" then (false, keys, lines)
      else
        var saved := SaveToken(keys, raw, Some(ReplyLifetime(reply.value)), now, lines);
        (true, saved.0, saved.1)
  }

  /** `ensure_token`: the bearer token to use, issuing a new one when needed. */
  function EnsureToken(keys: Option<KisKeys>, now: real, reply: Option<TokenReply>, lines: seq<string>): (r: Option<string>)
    ensures keys.None? ==> r.None?
    ensures r.Some? ==> StartsWith(r.value, BearerPrefix)
    ensures keys.Some? && !NeedNewToken(keys.value, now) ==> r == keys.value.accessToken
    ensures keys.Some? && NeedNewToken(keys.value, now) ==> (r.Some? <==> IssueToken(keys.value, reply, now, lines).0)
    ensures keys.Some? && NeedNewToken(keys.value, now) && IssueToken(keys.value, reply, now, lines).0 ==>
      r == IssueToken(keys.value, reply, now, lines).1.accessToken
      && r == Some(NormalizeBearer(FirstTruthy(reply.value.accessToken, reply.value.accessTokenAlt)))
  {
    if keys.None? then None
    else if NeedNewToken(keys.value, now) then
      var issued := IssueToken(keys.value, reply, now, lines);
      if !issued.0 then None else issued.1.accessToken
    else keys.value.accessToken
  }
}

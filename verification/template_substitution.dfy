/**
 The template variables of the container script: five sed passes, one per token, against the replacement of
 all tokens at once. Values are taken literally, that is, free of sed metacharacters and line breaks.
 */
module TemplateSubstitution {
  import opened Options

  const TOKENS: seq<string> := ["LXC_NAME", "LXC_PATH", "LXC_ROOTFS", "LXC_TEMPLATE_CONFIG", "LXC_HOOK_DIR"]

  predicate NonEmpty(tokens: seq<string>) {
    forall i :: 0 <= i < |tokens| ==> tokens[i] != ""
  }

  /** One pass of sed: every leftmost occurrence that does not overlap an earlier one. */
  function Replace(text: string, token: string, value: string): string
    requires token != ""
    decreases |text|
  {
    if text == "" then ""
    else if token <= text then value + Replace(text[|token|..], token, value)
    else [text[0]] + Replace(text[1..], token, value)
  }

  /** The passes from `first` on, in order. */
  function Passes(text: string, tokens: seq<string>, values: seq<string>, first: nat): string
    requires |tokens| == |values| && first <= |tokens|
    requires NonEmpty(tokens)
    decreases |tokens| - first
  {
    if first == |tokens| then text
    else Passes(Replace(text, tokens[first], values[first]), tokens, values, first + 1)
  }

  /** The first of the first n tokens that the text starts with. */
  function FirstMatch(text: string, tokens: seq<string>, n: nat): (m: Option<nat>)
    requires n <= |tokens|
    ensures m.Some? ==> m.value < n && tokens[m.value] <= text
    ensures m.None? <==> forall i :: 0 <= i < n ==> !(tokens[i] <= text)
    decreases n
  {
    if n == 0 then None
    else
      var earlier := FirstMatch(text, tokens, n - 1);
      if earlier.Some? then earlier else if tokens[n - 1] <= text then Some(n - 1) else None
  }

  /** One scan that replaces the first n tokens at once and never looks at replaced text again. */
  function AtOnce(text: string, tokens: seq<string>, values: seq<string>, n: nat): string
    requires |tokens| == |values| && n <= |tokens|
    requires NonEmpty(tokens)
    decreases |text|
  {
    if text == "" then ""
    else
      var m := FirstMatch(text, tokens, n);
      if m.Some? then values[m.value] + AtOnce(text[|tokens[m.value]|..], tokens, values, n)
      else [text[0]] + AtOnce(text[1..], tokens, values, n)
  }

  // ---------- overlaps ----------

  /** The token fits over the value at offset p, agreeing wherever both have a character. */
  predicate Fits(value: string, token: string, p: int) {
    forall k :: 0 <= k < |token| && 0 <= p + k < |value| ==> value[p + k] == token[k]
  }

  /**
   Putting the value into some text can complete the token: it contains it, or a part of it, or the text
   around it can supply the rest. An empty value always can.
   */
  ghost predicate Clash(value: string, token: string) {
    exists p :: -|token| < p < |value| && Fits(value, token, p)
  }

  ghost predicate OverlapFree(t: string, u: string) {
    forall d :: 1 <= d < |t| ==> !Fits(t, u, d)
  }

  /** No token starts inside another one, and none starts with another one. */
  ghost predicate Separate(tokens: seq<string>) {
    && (forall i, j :: 0 <= i < |tokens| && 0 <= j < |tokens| ==> OverlapFree(tokens[i], tokens[j]))
    && (forall i, j :: 0 <= i < |tokens| && 0 <= j < |tokens| && i != j ==> !(tokens[i] <= tokens[j]))
    && NonEmpty(tokens)
  }

  // ---------- one pass ----------

  /** sed passes over a value that cannot take part in an occurrence. */
  lemma {:induction false} SkipValue(value: string, k: nat, rest: string, token: string, other: string)
    requires token != "" && k <= |value| && !Clash(value, token)
    ensures Replace(value[k..] + rest, token, other) == value[k..] + Replace(rest, token, other)
    decreases |value| - k
  {
    if k == |value| {
      assert value[k..] + rest == rest;
    } else {
      var text := value[k..] + rest;
      if token <= text {
        forall i | 0 <= i < |token| && 0 <= k + i < |value| ensures value[k + i] == token[i] {
          assert text[i] == token[i];
        }
        assert Fits(value, token, k);
        assert false;
      }
      assert text[1..] == value[k + 1..] + rest;
      SkipValue(value, k + 1, rest, token, other);
    }
  }

  /** None of the first n tokens starts at any of the first k characters. */
  predicate Quiet(text: string, tokens: seq<string>, n: nat, k: nat)
    requires n <= |tokens|
    decreases k
  {
    k == 0 || (text != "" && FirstMatch(text, tokens, n).None? && Quiet(text[1..], tokens, n, k - 1))
  }

  lemma Glue(text: string, k: nat, rest: string)
    requires 1 <= k <= |text|
    ensures [text[0]] + (text[1..][..k - 1] + rest) == text[..k] + rest
  {}

  /** Text in which no token starts is copied. */
  lemma {:induction false} CopyQuiet(text: string, tokens: seq<string>, values: seq<string>, n: nat, k: nat)
    requires |tokens| == |values| && n <= |tokens| && NonEmpty(tokens)
    requires k <= |text| && Quiet(text, tokens, n, k)
    ensures AtOnce(text, tokens, values, n) == text[..k] + AtOnce(text[k..], tokens, values, n)
    decreases k
  {
    if k == 0 {
      assert text[0..] == text;
    } else {
      CopyQuiet(text[1..], tokens, values, n, k - 1);
      assert text[1..][k - 1..] == text[k..];
      Glue(text, k, AtOnce(text[k..], tokens, values, n));
    }
  }

  /** No token starts strictly inside another one. */
  lemma NoTokenInside(text: string, tokens: seq<string>, n: nat, j: nat, k: nat)
    requires n <= |tokens| && j < |tokens| && Separate(tokens)
    requires 1 <= k < |tokens[j]| && tokens[j][k..] <= text
    ensures FirstMatch(text, tokens, n).None?
  {
    forall i | 0 <= i < n ensures !(tokens[i] <= text) {
      assert OverlapFree(tokens[j], tokens[i]);
      assert !Fits(tokens[j], tokens[i], k);
      var q :| 0 <= q < |tokens[i]| && 0 <= k + q < |tokens[j]| && tokens[j][k + q] != tokens[i][q];
      assert text[q] == tokens[j][k..][q] == tokens[j][k + q];
    }
  }

  lemma {:induction false} TokenIsQuiet(text: string, tokens: seq<string>, n: nat, j: nat, k: nat)
    requires n <= |tokens| && j < |tokens| && Separate(tokens)
    requires k <= |tokens[j]| && tokens[j][k..] <= text
    requires k == 0 ==> FirstMatch(text, tokens, n).None?
    ensures Quiet(text, tokens, n, |tokens[j]| - k)
    decreases |tokens[j]| - k
  {
    if k < |tokens[j]| {
      if k > 0 {
        NoTokenInside(text, tokens, n, j, k);
      }
      assert tokens[j][k..][1..] == tokens[j][k + 1..];
      TokenIsQuiet(text[1..], tokens, n, j, k + 1);
    }
  }

  /** A token in the text is copied unchanged by a scan for other tokens. */
  lemma CopyToken(text: string, tokens: seq<string>, values: seq<string>, n: nat, j: nat)
    requires |tokens| == |values| && n <= |tokens| && j < |tokens| && Separate(tokens)
    requires tokens[j] <= text && FirstMatch(text, tokens, n).None?
    ensures AtOnce(text, tokens, values, n) == tokens[j] + AtOnce(text[|tokens[j]|..], tokens, values, n)
  {
    assert tokens[j][0..] == tokens[j];
    TokenIsQuiet(text, tokens, n, j, 0);
    CopyQuiet(text, tokens, values, n, |tokens[j]|);
  }

  /** No occurrence of the token starts before a value that does not clash and reaches into it. */
  lemma ValueBlocks(value: string, after: string, token: string, k: nat)
    requires 0 < k < |token| && !Clash(value, token)
    ensures !(token[k..] <= value + after)
  {
    var p: int := 0 - k;
    assert !Fits(value, token, p);
    var q :| 0 <= q < |token| && 0 <= p + q < |value| && value[p + q] != token[q];
    assert token[k..][q - k] == token[q] && (value + after)[q - k] == value[q - k];
  }

  /** If the scanned text starts with a later token, or continues with the rest of it, so did the original. */
  lemma {:induction false} TokenIsOriginal(text: string, tokens: seq<string>, values: seq<string>, n: nat, k: nat)
    requires |tokens| == |values| && n < |tokens| && NonEmpty(tokens)
    requires forall i :: 0 <= i < n ==> !Clash(values[i], tokens[n])
    requires k <= |tokens[n]| && tokens[n][k..] <= AtOnce(text, tokens, values, n)
    requires k == 0 ==> FirstMatch(text, tokens, n).None?
    ensures tokens[n][k..] <= text
    decreases |tokens[n]| - k
  {
    if k < |tokens[n]| && text != "" {
      var m := FirstMatch(text, tokens, n);
      if m.Some? {
        ValueBlocks(values[m.value], AtOnce(text[|tokens[m.value]|..], tokens, values, n), tokens[n], k);
        assert false;
      }
      var scanned := AtOnce(text, tokens, values, n);
      assert scanned[1..] == AtOnce(text[1..], tokens, values, n);
      assert tokens[n][k..][1..] == tokens[n][k + 1..];
      assert tokens[n][k..][0] == scanned[0] == text[0];
      TokenIsOriginal(text[1..], tokens, values, n, k + 1);
    }
  }

  /** One more sed pass adds exactly one more token to the scan that replaces all at once. */
  lemma {:induction false} OnePass(text: string, tokens: seq<string>, values: seq<string>, n: nat)
    requires |tokens| == |values| && n < |tokens| && Separate(tokens)
    requires forall i :: 0 <= i < n ==> !Clash(values[i], tokens[n])
    ensures Replace(AtOnce(text, tokens, values, n), tokens[n], values[n]) == AtOnce(text, tokens, values, n + 1)
    decreases |text|
  {
    if text != "" {
      var m := FirstMatch(text, tokens, n);
      var scanned := AtOnce(text, tokens, values, n);
      if m.Some? {
        var rest := text[|tokens[m.value]|..];
        var value := values[m.value];
        SkipValue(value, 0, AtOnce(rest, tokens, values, n), tokens[n], values[n]);
        assert value[0..] == value;
        OnePass(rest, tokens, values, n);
      } else if tokens[n] <= text {
        var rest := text[|tokens[n]|..];
        CopyToken(text, tokens, values, n, n);
        assert scanned == tokens[n] + AtOnce(rest, tokens, values, n);
        assert scanned[|tokens[n]|..] == AtOnce(rest, tokens, values, n);
        OnePass(rest, tokens, values, n);
      } else {
        if tokens[n] <= scanned {
          assert tokens[n][0..] == tokens[n];
          TokenIsOriginal(text, tokens, values, n, 0);
          assert false;
        }
        assert scanned[1..] == AtOnce(text[1..], tokens, values, n);
        OnePass(text[1..], tokens, values, n);
      }
    }
  }

  lemma {:induction false} NothingAtOnce(text: string, tokens: seq<string>, values: seq<string>)
    requires |tokens| == |values| && NonEmpty(tokens)
    ensures AtOnce(text, tokens, values, 0) == text
    decreases |text|
  {
    if text != "" {
      NothingAtOnce(text[1..], tokens, values);
      assert [text[0]] + text[1..] == text;
    }
  }

  /** Later passes never see an earlier value as part of a token. */
  ghost predicate NoClashes(tokens: seq<string>, values: seq<string>, from: nat, to: nat)
    requires |tokens| == |values| && to <= |tokens|
  {
    forall i, j :: from <= i < j < to ==> !Clash(values[i], tokens[j])
  }

  lemma {:induction false} PassesSoFar(text: string, tokens: seq<string>, values: seq<string>, n: nat, done: nat)
    requires |tokens| == |values| && n <= done <= |tokens| && Separate(tokens)
    requires NoClashes(tokens, values, 0, done)
    ensures Passes(AtOnce(text, tokens, values, n), tokens, values, n)
         == Passes(AtOnce(text, tokens, values, done), tokens, values, done)
    decreases done - n
  {
    if n < done {
      OnePass(text, tokens, values, n);
      PassesSoFar(text, tokens, values, n + 1, done);
    }
  }

  /** The passes one after the other give the same as replacing all tokens at once, for text of any length. */
  lemma PassesEqualAtOnce(text: string, tokens: seq<string>, values: seq<string>)
    requires |tokens| == |values| && Separate(tokens) && NoClashes(tokens, values, 0, |tokens|)
    ensures Passes(text, tokens, values, 0) == AtOnce(text, tokens, values, |tokens|)
  {
    NothingAtOnce(text, tokens, values);
    PassesSoFar(text, tokens, values, 0, |tokens|);
  }

  // ---------- the tokens of the script ----------

  predicate TokenChar(c: char) {
    c == '_' || 'A' <= c <= 'Z'
  }

  /** Every token starts with LX, and neither LX nor a final L occurs in it again. */
  predicate Headed(t: string) {
    && |t| >= 2 && t[0] == 'L' && t[1] == 'X'
    && forall d :: 1 <= d < |t| && t[d] == 'L' ==> d + 1 < |t| && t[d + 1] != 'X'
  }

  lemma HeadedOverlapFree(t: string, u: string)
    requires Headed(t) && Headed(u)
    ensures OverlapFree(t, u)
  {}

  lemma TokensHeaded()
    ensures forall t :: t in TOKENS ==> Headed(t)
    ensures forall t, c :: t in TOKENS && c in t ==> TokenChar(c)
  {
    assert TOKENS[0] == "LXC_NAME" && TOKENS[1] == "LXC_PATH" && TOKENS[2] == "LXC_ROOTFS"
        && TOKENS[3] == "LXC_TEMPLATE_CONFIG" && TOKENS[4] == "LXC_HOOK_DIR";
    assert Headed("LXC_NAME") && Headed("LXC_PATH") && Headed("LXC_ROOTFS");
    assert Headed("LXC_TEMPLATE_CONFIG") && Headed("LXC_HOOK_DIR");
  }

  /** The five tokens can neither overlap each other nor begin with one another. */
  lemma TokensSeparate()
    ensures Separate(TOKENS)
  {
    TokensHeaded();
    forall i, j | 0 <= i < |TOKENS| && 0 <= j < |TOKENS| ensures OverlapFree(TOKENS[i], TOKENS[j]) {
      HeadedOverlapFree(TOKENS[i], TOKENS[j]);
    }
    assert TOKENS[0][4] == 'N' && TOKENS[1][4] == 'P' && TOKENS[2][4] == 'R';
    assert TOKENS[3][4] == 'T' && TOKENS[4][4] == 'H';
    forall i, j | 0 <= i < |TOKENS| && 0 <= j < |TOKENS| && i != j ensures !(TOKENS[i] <= TOKENS[j]) {
      assert TOKENS[i][4] != TOKENS[j][4];
    }
  }

  predicate OccursAt(text: string, part: string, p: nat) {
    p + |part| <= |text| && text[p..p + |part|] == part
  }

  ghost predicate Contains(text: string, part: string) {
    exists p: nat :: OccursAt(text, part, p)
  }

  lemma Difference(a: string, b: string) returns (k: nat)
    requires |a| == |b| && a != b
    ensures k < |a| && a[k] != b[k]
  {
    k :| k < |a| && a[k] != b[k];
  }

  /** A value that begins and ends outside [A-Z_] and contains no token clashes with none. */
  lemma PlainValueDoesNotClash(value: string, token: string)
    requires value != "" && !TokenChar(value[0]) && !TokenChar(value[|value| - 1])
    requires forall c :: c in token ==> TokenChar(c)
    requires !Contains(value, token)
    ensures !Clash(value, token)
  {
    forall p | -|token| < p < |value| ensures !Fits(value, token, p) {
      if p < 0 {
        assert token[-p] in token && value[p + (-p)] != token[-p];
      } else if p + |token| > |value| {
        var k := |value| - 1 - p;
        assert token[k] in token && value[p + k] != token[k];
      } else {
        assert !OccursAt(value, token, p);
        var k := Difference(value[p..p + |token|], token);
        assert value[p + k] != token[k];
      }
    }
  }

  /** The promise of the script for plain values, on any text. */
  lemma ScriptSubstitutesAtOnce(text: string, values: seq<string>)
    requires |values| == |TOKENS|
    requires forall i, j :: 0 <= i < j < |TOKENS| ==> !Contains(values[i], TOKENS[j])
    requires forall i :: 0 <= i < |TOKENS| ==>
               values[i] != "" && !TokenChar(values[i][0]) && !TokenChar(values[i][|values[i]| - 1])
    ensures Separate(TOKENS) && Passes(text, TOKENS, values, 0) == AtOnce(text, TOKENS, values, |TOKENS|)
  {
    TokensSeparate();
    TokensHeaded();
    forall i, j | 0 <= i < j < |TOKENS| ensures !Clash(values[i], TOKENS[j]) {
      PlainValueDoesNotClash(values[i], TOKENS[j]);
    }
    PassesEqualAtOnce(text, TOKENS, values);
  }
}

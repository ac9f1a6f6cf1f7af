/**
 For which values the sed passes are a simultaneous substitution, exactly: any name, and four values that
 are absolute paths.
 */
module TemplateNames {
  import opened Options
  import opened TemplateSubstitution

  predicate PathValues(values: seq<string>)
    requires |values| == |TOKENS|
  {
    forall i :: 1 <= i < |values| ==> values[i] != "" && values[i][0] == '/'
  }

  ghost predicate AlwaysAtOnce(values: seq<string>)
    requires |values| == |TOKENS| && NonEmpty(TOKENS)
  {
    forall text :: Passes(text, TOKENS, values, 0) == AtOnce(text, TOKENS, values, |TOKENS|)
  }

  // ---------- the text that tells the difference ----------

  /** What has to stand before and after the value for it to complete the token at offset p. */
  function Before(token: string, p: int): string
    requires -|token| < p
  {
    if p < 0 then token[..-p] else ""
  }

  function Behind(value: string, token: string, p: int): string
    requires -|token| < p < |value|
  {
    if |value| - p < |token| then token[|value| - p..] else ""
  }

  /** The start of token j, with token i behind it, is not the start of any token. */
  lemma NoTokenBefore(tokens: seq<string>, n: nat, i: nat, j: nat, q: nat, u: string, rest: string)
    requires n <= |tokens| && i < |tokens| && j < |tokens| && Separate(tokens)
    requires u != "" && tokens[i] <= rest
    requires q + |u| < |tokens[j]| && tokens[j][q..q + |u|] == u
    ensures FirstMatch(u + rest, tokens, n).None?
  {
    var text := u + rest;
    forall m | 0 <= m < n ensures !(tokens[m] <= text) {
      if |tokens[m]| <= |u| {
        if q == 0 {
          assert !(tokens[m] <= tokens[j]);
          assert text[..|tokens[m]|] == u[..|tokens[m]|] == tokens[j][..|tokens[m]|];
        } else {
          assert OverlapFree(tokens[j], tokens[m]) && !Fits(tokens[j], tokens[m], q);
          var k :| 0 <= k < |tokens[m]| && 0 <= q + k < |tokens[j]| && tokens[j][q + k] != tokens[m][k];
          assert text[k] == u[k] == tokens[j][q..q + |u|][k] == tokens[j][q + k];
        }
      } else {
        assert OverlapFree(tokens[m], tokens[i]) && !Fits(tokens[m], tokens[i], |u|);
        var k :| 0 <= k < |tokens[i]| && 0 <= |u| + k < |tokens[m]| && tokens[m][|u| + k] != tokens[i][k];
        assert text[|u| + k] == rest[k] == tokens[i][k];
      }
    }
  }

  lemma {:induction false} QuietBefore(tokens: seq<string>, n: nat, i: nat, j: nat, q: nat, cut: nat, rest: string)
    requires n <= |tokens| && i < |tokens| && j < |tokens| && Separate(tokens)
    requires q <= cut < |tokens[j]| && tokens[i] <= rest
    ensures Quiet(tokens[j][q..cut] + rest, tokens, n, cut - q)
    decreases cut - q
  {
    if q < cut {
      var u := tokens[j][q..cut];
      assert tokens[j][q..q + |u|] == u;
      NoTokenBefore(tokens, n, i, j, q, u, rest);
      assert (u + rest)[1..] == tokens[j][q + 1..cut] + rest;
      QuietBefore(tokens, n, i, j, q + 1, cut, rest);
    }
  }

  /** A text that starts with token i starts with no other token. */
  lemma FirstIs(text: string, tokens: seq<string>, n: nat, i: nat)
    requires i < n <= |tokens| && Separate(tokens) && tokens[i] <= text
    ensures FirstMatch(text, tokens, n) == Some(i)
  {}

  /** What stands before the token is copied. */
  lemma ScanBefore(tokens: seq<string>, values: seq<string>, n: nat, i: nat, j: nat, p: int, rest: string)
    requires |tokens| == |values| && n <= |tokens| && i < |tokens| && j < |tokens| && Separate(tokens)
    requires -|tokens[j]| < p && tokens[i] <= rest
    ensures AtOnce(Before(tokens[j], p) + rest, tokens, values, n)
         == Before(tokens[j], p) + AtOnce(rest, tokens, values, n)
  {
    var u := Before(tokens[j], p);
    if p < 0 {
      assert u == tokens[j][0..-p];
      QuietBefore(tokens, n, i, j, 0, -p, rest);
    }
    assert Quiet(u + rest, tokens, n, |u|);
    CopyQuiet(u + rest, tokens, values, n, |u|);
    assert (u + rest)[|u|..] == rest && (u + rest)[..|u|] == u;
  }

  /** And so is what stands behind it. */
  lemma ScanBehind(tokens: seq<string>, values: seq<string>, n: nat, i: nat, j: nat, p: int)
    requires |tokens| == |values| && n <= |tokens| && i < |tokens| && j < |tokens| && Separate(tokens)
    requires -|tokens[j]| < p < |values[i]|
    ensures var v := Behind(values[i], tokens[j], p); AtOnce(v, tokens, values, n) == v
  {
    var v := Behind(values[i], tokens[j], p);
    if v != "" {
      TokenIsQuiet(v, tokens, n, j, |values[i]| - p);
      CopyQuiet(v, tokens, values, n, |v|);
      assert v[|v|..] == "" && v[..|v|] == v && v + "" == v;
    }
  }

  /** In the text made of the two parts around token i, only that token is replaced. */
  lemma WitnessAtOnce(tokens: seq<string>, values: seq<string>, n: nat, i: nat, j: nat, p: int)
    requires |tokens| == |values| && i < n <= |tokens| && j < |tokens| && Separate(tokens)
    requires -|tokens[j]| < p < |values[i]|
    ensures var u, v := Before(tokens[j], p), Behind(values[i], tokens[j], p);
            AtOnce(u + (tokens[i] + v), tokens, values, n) == u + (values[i] + v)
  {
    var v := Behind(values[i], tokens[j], p);
    var rest := tokens[i] + v;
    ScanBefore(tokens, values, n, i, j, p, rest);
    FirstIs(rest, tokens, n, i);
    assert rest[|tokens[i]|..] == v;
    ScanBehind(tokens, values, n, i, j, p);
  }

  /** The value completes the token between the two parts. */
  lemma WitnessHasToken(value: string, token: string, p: int)
    requires -|token| < p < |value| && Fits(value, token, p)
    ensures Contains(Before(token, p) + (value + Behind(value, token, p)), token)
  {
    var u, v := Before(token, p), Behind(value, token, p);
    var text := u + (value + v);
    var start: nat := if p < 0 then 0 else p;
    assert start + |token| <= |text|;
    forall k | 0 <= k < |token| ensures text[start + k] == token[k] {
      var at := start + k - |u|;
      assert at == p + k;
      if 0 <= at < |value| {
        assert value[p + k] == token[k];
      }
    }
    assert text[start..start + |token|] == token;
    assert OccursAt(text, token, start);
  }

  // ---------- what a wrong pass leaves behind ----------

  function Slashes(text: string): nat {
    if text == "" then 0 else (if text[0] == '/' then 1 else 0) + Slashes(text[1..])
  }

  lemma {:induction false} SlashesConcat(a: string, b: string)
    ensures Slashes(a + b) == Slashes(a) + Slashes(b)
  {
    if a == "" {
      assert a + b == b;
    } else {
      assert (a + b)[1..] == a[1..] + b;
      SlashesConcat(a[1..], b);
    }
  }

  lemma {:induction false} NoSlashes(text: string)
    requires '/' !in text
    ensures Slashes(text) == 0
  {
    if text != "" {
      NoSlashes(text[1..]);
    }
  }

  /** Replacing a token that has no slash never loses one. */
  lemma {:induction false} ReplaceKeepsSlashes(text: string, token: string, value: string)
    requires token != "" && '/' !in token
    ensures Slashes(Replace(text, token, value)) >= Slashes(text)
    decreases |text|
  {
    if token <= text && text != "" {
      var rest := text[|token|..];
      assert text == token + rest;
      ReplaceKeepsSlashes(rest, token, value);
      SlashesConcat(token, rest);
      NoSlashes(token);
      SlashesConcat(value, Replace(rest, token, value));
    } else if text != "" {
      ReplaceKeepsSlashes(text[1..], token, value);
      SlashesConcat([text[0]], Replace(text[1..], token, value));
    }
  }

  /** If the token occurs, a value with a slash adds one. */
  lemma {:induction false} ReplaceAddsSlash(text: string, token: string, value: string, p: nat)
    requires token != "" && '/' !in token && OccursAt(text, token, p) && Slashes(value) > 0
    ensures Slashes(Replace(text, token, value)) > Slashes(text)
    decreases |text|
  {
    if token <= text {
      var rest := text[|token|..];
      assert text == token + rest;
      ReplaceKeepsSlashes(rest, token, value);
      SlashesConcat(token, rest);
      NoSlashes(token);
      SlashesConcat(value, Replace(rest, token, value));
    } else {
      assert p != 0;
      assert text[1..][p - 1..p - 1 + |token|] == text[p..p + |token|];
      ReplaceAddsSlash(text[1..], token, value, p - 1);
      SlashesConcat([text[0]], Replace(text[1..], token, value));
    }
  }

  lemma {:induction false} PassesKeepSlashes(text: string, tokens: seq<string>, values: seq<string>, first: nat)
    requires |tokens| == |values| && first <= |tokens| && NonEmpty(tokens)
    requires forall i :: 0 <= i < |tokens| ==> '/' !in tokens[i]
    ensures Slashes(Passes(text, tokens, values, first)) >= Slashes(text)
    decreases |tokens| - first
  {
    if first < |tokens| {
      ReplaceKeepsSlashes(text, tokens[first], values[first]);
      PassesKeepSlashes(Replace(text, tokens[first], values[first]), tokens, values, first + 1);
    }
  }

  /** Once the passes reach a token that a value has completed, a slash too many gets in and stays. */
  lemma PassAddsSlash(text: string, tokens: seq<string>, values: seq<string>, j: nat)
    requires |tokens| == |values| && j < |tokens| && NonEmpty(tokens)
    requires Contains(text, tokens[j]) && Slashes(values[j]) > 0 && forall i :: 0 <= i < |tokens| ==> '/' !in tokens[i]
    ensures Slashes(Passes(text, tokens, values, j)) > Slashes(text)
  {
    var q: nat :| OccursAt(text, tokens[j], q);
    ReplaceAddsSlash(text, tokens[j], values[j], q);
    PassesKeepSlashes(Replace(text, tokens[j], values[j]), tokens, values, j + 1);
  }

  lemma NoSlashInTokens()
    ensures forall i :: 0 <= i < |TOKENS| ==> '/' !in TOKENS[i]
  {
    TokensHeaded();
    forall i | 0 <= i < |TOKENS| ensures '/' !in TOKENS[i] {
      assert TOKENS[i] in TOKENS && !TokenChar('/');
    }
  }

  /** The passes up to the first token that some value completes, on the text built from it. */
  lemma WitnessPasses(tokens: seq<string>, values: seq<string>, i: nat, j: nat, p: int)
    requires |tokens| == |values| && i < j < |tokens| && Separate(tokens)
    requires -|tokens[j]| < p < |values[i]| && NoClashes(tokens, values, 0, j)
    ensures var u, v := Before(tokens[j], p), Behind(values[i], tokens[j], p);
            && Passes(u + (tokens[i] + v), tokens, values, 0) == Passes(u + (values[i] + v), tokens, values, j)
            && AtOnce(u + (tokens[i] + v), tokens, values, |tokens|) == u + (values[i] + v)
  {
    var u, v := Before(tokens[j], p), Behind(values[i], tokens[j], p);
    var text := u + (tokens[i] + v);
    WitnessAtOnce(tokens, values, j, i, j, p);
    WitnessAtOnce(tokens, values, |tokens|, i, j, p);
    NothingAtOnce(text, tokens, values);
    PassesSoFar(text, tokens, values, 0, j);
  }

  /** A value that clashes with a later token gives itself away on the text built from that token. */
  lemma ClashShows(tokens: seq<string>, values: seq<string>, i: nat, j: nat)
    requires |tokens| == |values| && i < j < |tokens| && Separate(tokens)
    requires Clash(values[i], tokens[j]) && NoClashes(tokens, values, 0, j)
    requires Slashes(values[j]) > 0 && forall i :: 0 <= i < |tokens| ==> '/' !in tokens[i]
    ensures exists text :: Passes(text, tokens, values, 0) != AtOnce(text, tokens, values, |tokens|)
  {
    var p :| -|tokens[j]| < p < |values[i]| && Fits(values[i], tokens[j], p);
    var u, v := Before(tokens[j], p), Behind(values[i], tokens[j], p);
    WitnessPasses(tokens, values, i, j, p);
    WitnessHasToken(values[i], tokens[j], p);
    PassAddsSlash(u + (values[i] + v), tokens, values, j);
    assert Passes(u + (tokens[i] + v), tokens, values, 0) != AtOnce(u + (tokens[i] + v), tokens, values, |tokens|);
  }

  /** The first token that some earlier value can complete. */
  lemma FirstClash(tokens: seq<string>, values: seq<string>, n: nat) returns (i: nat, j: nat)
    requires |tokens| == |values| && n <= |tokens| && !NoClashes(tokens, values, 0, n)
    ensures i < j < n && Clash(values[i], tokens[j]) && NoClashes(tokens, values, 0, j)
    decreases n
  {
    if NoClashes(tokens, values, 0, n - 1) {
      j := n - 1;
      i :| 0 <= i < j && Clash(values[i], tokens[j]);
    } else {
      i, j := FirstClash(tokens, values, n - 1);
    }
  }

  /**
   Exactly when the script substitutes simultaneously, for absolute paths and any name: the five sed passes
   replace all tokens at once in every text if and only if no value can complete a later token.
   */
  lemma SafeNames(values: seq<string>)
    requires |values| == |TOKENS| && PathValues(values)
    ensures NonEmpty(TOKENS)
    ensures AlwaysAtOnce(values) <==> NoClashes(TOKENS, values, 0, |TOKENS|)
  {
    TokensSeparate();
    if NoClashes(TOKENS, values, 0, |TOKENS|) {
      forall text ensures Passes(text, TOKENS, values, 0) == AtOnce(text, TOKENS, values, |TOKENS|) {
        PassesEqualAtOnce(text, TOKENS, values);
      }
    } else {
      NoSlashInTokens();
      var i, j := FirstClash(TOKENS, values, |TOKENS|);
      ClashShows(TOKENS, values, i, j);
    }
  }

  /** Tokens are capitals and underscores, so a name without any does no harm where the paths do none. */
  lemma LowercaseNamesAreSafe(values: seq<string>)
    requires |values| == |TOKENS| && PathValues(values) && NoClashes(TOKENS, values, 1, |TOKENS|)
    requires values[0] != "" && forall i :: 0 <= i < |values[0]| ==> !TokenChar(values[0][i])
    ensures NonEmpty(TOKENS) && AlwaysAtOnce(values)
  {
    TokensHeaded();
    forall j | 0 < j < |TOKENS| ensures !Clash(values[0], TOKENS[j]) {
      forall p | -|TOKENS[j]| < p < |values[0]| ensures !Fits(values[0], TOKENS[j], p) {
        var k := if p < 0 then -p else 0;
        assert TOKENS[j] in TOKENS && TOKENS[j][k] in TOKENS[j];
        assert values[0][p + k] != TOKENS[j][k];
      }
    }
    SafeNames(values);
  }

  /** A container called PATH is not safe: LXC_LXC_NAME becomes LXC_PATH, which the next pass replaces again. */
  lemma PathIsNotASafeName(values: seq<string>)
    requires |values| == |TOKENS| && values[0] == "PATH" && PathValues(values)
    ensures NonEmpty(TOKENS) && !AlwaysAtOnce(values)
  {
    assert TOKENS[1] == "LXC_PATH";
    assert Fits(values[0], TOKENS[1], -4);
    SafeNames(values);
  }

  /** Nor is one whose name, and with it LXC_PATH, ends in L: LXC_PATH followed by XC_ROOTFS reads LXC_ROOTFS. */
  lemma NamesEndingInLAreNotSafe(values: seq<string>)
    requires |values| == |TOKENS| && PathValues(values) && values[1][|values[1]| - 1] == 'L'
    ensures NonEmpty(TOKENS) && !AlwaysAtOnce(values)
  {
    assert TOKENS[2] == "LXC_ROOTFS";
    assert Fits(values[1], TOKENS[2], |values[1]| - 1);
    SafeNames(values);
  }
}

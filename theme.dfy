/** Theme state and token substitution. A theme brings a token table
    (`--token-name` to value), replaced as a whole when the theme changes, and
    a stylesheet whose token names are replaced by their values. The QMap of
    tokens is a key-ordered sequence of pairs. */
module Themes {
  import opened Text

  /** ThemeManager::Theme, whose integer values 0 to 3 are what the
      preference stores. */
  datatype Theme = Light | Sepia | Dark | Custom

  /** A QMap<QString, QString>: pairs in ascending key order. */
  type TokenMap = seq<(string, string)>

  /** QString's operator<, on code units: the first difference decides, and a
      proper prefix comes first. */
  predicate StrLess(a: string, b: string) {
    StrLessFrom(a, b, 0)
  }

  /** The comparison from position `k` on, the positions before `k` being
      equal. */
  predicate StrLessFrom(a: string, b: string, k: nat)
    decreases |a| - k
  {
    if k >= |a| then k < |b|
    else if k >= |b| then false
    else a[k] < b[k] || (a[k] == b[k] && StrLessFrom(a, b, k + 1))
  }

  lemma {:induction false} StrLessFromTransitive(a: string, b: string, c: string, k: nat)
    requires StrLessFrom(a, b, k) && StrLessFrom(b, c, k)
    ensures StrLessFrom(a, c, k)
    decreases |a| - k
  {
    if k < |a| && a[k] == b[k] && b[k] == c[k] {
      StrLessFromTransitive(a, b, c, k + 1);
    }
  }

  lemma {:induction false} StrLessFromIrreflexive(a: string, k: nat)
    ensures !StrLessFrom(a, a, k)
    decreases |a| - k
  {
    if k < |a| {
      StrLessFromIrreflexive(a, k + 1);
    }
  }

  lemma StrLessTransitive(a: string, b: string, c: string)
    requires StrLess(a, b) && StrLess(b, c)
    ensures StrLess(a, c)
  {
    StrLessFromTransitive(a, b, c, 0);
  }

  lemma StrLessIrreflexive(a: string)
    ensures !StrLess(a, a)
  {
    StrLessFromIrreflexive(a, 0);
  }

  /** Keys strictly ascending, hence distinct. */
  predicate KeysSorted(m: TokenMap) {
    forall i, j :: 0 <= i < j < |m| ==> StrLess(m[i].0, m[j].0)
  }

  predicate KeysNonEmpty(m: TokenMap) {
    forall i :: 0 <= i < |m| ==> m[i].0 != []
  }

  /** A list sorted pair by pair is sorted. */
  lemma {:induction false} ChainSorted(keys: seq<string>)
    requires forall i :: 0 <= i < |keys| - 1 ==> StrLess(keys[i], keys[i + 1])
    ensures forall i, j :: 0 <= i < j < |keys| ==> StrLess(keys[i], keys[j])
  {
    forall i, j | 0 <= i < j < |keys| ensures StrLess(keys[i], keys[j]) {
      ChainFrom(keys, i, j);
    }
  }

  lemma {:induction false} ChainFrom(keys: seq<string>, i: nat, j: nat)
    requires forall k :: 0 <= k < |keys| - 1 ==> StrLess(keys[k], keys[k + 1])
    requires i < j < |keys|
    ensures StrLess(keys[i], keys[j])
    decreases j - i
  {
    if j > i + 1 {
      ChainFrom(keys, i + 1, j);
      StrLessTransitive(keys[i], keys[i + 1], keys[j]);
    }
  }

  const TokenKeys: seq<string> := [
    "--color-accent",
    "--color-background-primary",
    "--color-background-secondary",
    "--color-border",
    "--color-input-background",
    "--color-input-border",
    "--color-input-border-focus",
    "--color-input-text",
    "--color-link",
    "--color-link-hover",
    "--color-list-background",
    "--color-list-background-alt",
    "--color-list-text",
    "--color-selection-background",
    "--color-selection-text",
    "--color-text-primary",
    "--color-text-secondary",
    "--font-family-base",
    "--font-size-base"]

  const LightValues: seq<string> := [
    "#0066CC",
    "#FFFFFF",
    "#F5F5F5",
    "#CCCCCC",
    "#FFFFFF",
    "#808080",
    "#0066CC",
    "#000000",
    "#0066CC",
    "#004499",
    "#FFFFFF",
    "#F8F8F8",
    "#000000",
    "#3399FF",
    "#FFFFFF",
    "#000000",
    "#666666",
    "Inter, system-ui, Helvetica, Arial, sans-serif",
    "13pt"]

  const SepiaValues: seq<string> := [
    "#8B6914",
    "#FBF8F0",
    "#F5F0E8",
    "#D4C4B0",
    "#FFFFFF",
    "#9A8A70",
    "#8B6914",
    "#3C3228",
    "#8B6914",
    "#6B4F0A",
    "#FBF8F0",
    "#F5F0E8",
    "#3C3228",
    "#D4A574",
    "#3C3228",
    "#3C3228",
    "#6B5D4A",
    "Inter, system-ui, Georgia, serif",
    "13pt"]

  const DarkValues: seq<string> := [
    "#4A9EFF",
    "#1E1E1E",
    "#2D2D2D",
    "#404040",
    "#2D2D2D",
    "#606060",
    "#4A9EFF",
    "#F0F0F0",
    "#4A9EFF",
    "#6BB0FF",
    "#2D2D2D",
    "#252525",
    "#F0F0F0",
    "#4A9EFF",
    "#FFFFFF",
    "#F0F0F0",
    "#B0B0B0",
    "Inter, system-ui, Helvetica, Arial, sans-serif",
    "13pt"]

  /** generateDefaultStylesheet's text, line by line, before token
      replacement. */
  const DefaultStylesheetLines: seq<string> := [
    "\n",
    "        QMainWindow {\n",
    "            background-color: --color-background-primary;\n",
    "            color: --color-text-primary;\n",
    "        }\n",
    "        QWidget {\n",
    "            background-color: --color-background-primary;\n",
    "            color: --color-text-primary;\n",
    "        }\n",
    "        QTreeView, QListView {\n",
    "            background-color: --color-list-background;\n",
    "            alternate-background-color: --color-list-background-alt;\n",
    "            color: --color-list-text;\n",
    "            border: 1px solid --color-border;\n",
    "            selection-background-color: --color-selection-background;\n",
    "            selection-color: --color-selection-text;\n",
    "        }\n",
    "        QLineEdit, QTextEdit, QPlainTextEdit {\n",
    "            background-color: --color-input-background;\n",
    "            color: --color-input-text;\n",
    "            border: 1px solid --color-input-border;\n",
    "            padding: 4px;\n",
    "            border-radius: 3px;\n",
    "        }\n",
    "        QLineEdit:focus, QTextEdit:focus, QPlainTextEdit:focus {\n",
    "            border: 1px solid --color-input-border-focus;\n",
    "        }\n",
    "        QPushButton {\n",
    "            background-color: --color-accent;\n",
    "            color: white;\n",
    "            border: none;\n",
    "            padding: 6px 12px;\n",
    "            border-radius: 3px;\n",
    "        }\n",
    "        QPushButton:hover {\n",
    "            background-color: --color-link-hover;\n",
    "        }\n",
    "        QCheckBox {\n",
    "            color: --color-text-primary;\n",
    "        }\n",
    "        QLabel {\n",
    "            color: --color-text-primary;\n",
    "        }\n",
    "    "]

  /** The whole text. (Taking it through a slice keeps the verifier from
      expanding the literal lines wherever the stylesheet is mentioned.) */
  function DefaultStylesheet(): string {
    Concat(DefaultStylesheetLines[..|DefaultStylesheetLines|])
  }

  function Zip(keys: seq<string>, values: seq<string>): (r: TokenMap)
    requires |keys| == |values|
    ensures |r| == |keys|
    ensures forall i :: 0 <= i < |r| ==> r[i] == (keys[i], values[i])
  {
    seq(|keys|, i requires 0 <= i < |keys| => (keys[i], values[i]))
  }

  /** loadThemeTokens: the built-in table of each theme; Custom has none. */
  function ThemeTokens(theme: Theme): (r: TokenMap)
    ensures theme == Custom <==> r == []
    ensures theme != Custom ==> |r| == 19
    ensures forall i :: 0 <= i < |r| ==> r[i].0 == TokenKeys[i]
  {
    match theme
    case Light => Zip(TokenKeys, LightValues)
    case Sepia => Zip(TokenKeys, SepiaValues)
    case Dark => Zip(TokenKeys, DarkValues)
    case Custom => []
  }

  /** Each neighbouring pair of names, in its own lemma: the comparison is
      unfolded from the first differing position back to the start. */
  lemma AdjacentKeys0()
    ensures StrLess(TokenKeys[0], TokenKeys[1])
  {
    assert StrLessFrom("--color-accent", "--color-background-primary", 8);
    assert StrLessFrom("--color-accent", "--color-background-primary", 4);
    assert StrLessFrom("--color-accent", "--color-background-primary", 0);
  }

  lemma AdjacentKeys1()
    ensures StrLess(TokenKeys[1], TokenKeys[2])
  {
    assert StrLessFrom("--color-background-primary", "--color-background-secondary", 19);
    assert StrLessFrom("--color-background-primary", "--color-background-secondary", 15);
    assert StrLessFrom("--color-background-primary", "--color-background-secondary", 11);
    assert StrLessFrom("--color-background-primary", "--color-background-secondary", 7);
    assert StrLessFrom("--color-background-primary", "--color-background-secondary", 3);
    assert StrLessFrom("--color-background-primary", "--color-background-secondary", 0);
  }

  lemma AdjacentKeys2()
    ensures StrLess(TokenKeys[2], TokenKeys[3])
  {
    assert StrLessFrom("--color-background-secondary", "--color-border", 9);
    assert StrLessFrom("--color-background-secondary", "--color-border", 5);
    assert StrLessFrom("--color-background-secondary", "--color-border", 1);
    assert StrLessFrom("--color-background-secondary", "--color-border", 0);
  }

  lemma AdjacentKeys3()
    ensures StrLess(TokenKeys[3], TokenKeys[4])
  {
    assert StrLessFrom("--color-border", "--color-input-background", 8);
    assert StrLessFrom("--color-border", "--color-input-background", 4);
    assert StrLessFrom("--color-border", "--color-input-background", 0);
  }

  lemma AdjacentKeys4()
    ensures StrLess(TokenKeys[4], TokenKeys[5])
  {
    assert StrLessFrom("--color-input-background", "--color-input-border", 15);
    assert StrLessFrom("--color-input-background", "--color-input-border", 11);
    assert StrLessFrom("--color-input-background", "--color-input-border", 7);
    assert StrLessFrom("--color-input-background", "--color-input-border", 3);
    assert StrLessFrom("--color-input-background", "--color-input-border", 0);
  }

  lemma AdjacentKeys5()
    ensures StrLess(TokenKeys[5], TokenKeys[6])
  {
    assert StrLessFrom("--color-input-border", "--color-input-border-focus", 20);
    assert StrLessFrom("--color-input-border", "--color-input-border-focus", 16);
    assert StrLessFrom("--color-input-border", "--color-input-border-focus", 12);
    assert StrLessFrom("--color-input-border", "--color-input-border-focus", 8);
    assert StrLessFrom("--color-input-border", "--color-input-border-focus", 4);
    assert StrLessFrom("--color-input-border", "--color-input-border-focus", 0);
  }

  lemma AdjacentKeys6()
    ensures StrLess(TokenKeys[6], TokenKeys[7])
  {
    assert StrLessFrom("--color-input-border-focus", "--color-input-text", 14);
    assert StrLessFrom("--color-input-border-focus", "--color-input-text", 10);
    assert StrLessFrom("--color-input-border-focus", "--color-input-text", 6);
    assert StrLessFrom("--color-input-border-focus", "--color-input-text", 2);
    assert StrLessFrom("--color-input-border-focus", "--color-input-text", 0);
  }

  lemma AdjacentKeys7()
    ensures StrLess(TokenKeys[7], TokenKeys[8])
  {
    assert StrLessFrom("--color-input-text", "--color-link", 8);
    assert StrLessFrom("--color-input-text", "--color-link", 4);
    assert StrLessFrom("--color-input-text", "--color-link", 0);
  }

  lemma AdjacentKeys8()
    ensures StrLess(TokenKeys[8], TokenKeys[9])
  {
    assert StrLessFrom("--color-link", "--color-link-hover", 12);
    assert StrLessFrom("--color-link", "--color-link-hover", 8);
    assert StrLessFrom("--color-link", "--color-link-hover", 4);
    assert StrLessFrom("--color-link", "--color-link-hover", 0);
  }

  lemma AdjacentKeys9()
    ensures StrLess(TokenKeys[9], TokenKeys[10])
  {
    assert StrLessFrom("--color-link-hover", "--color-list-background", 10);
    assert StrLessFrom("--color-link-hover", "--color-list-background", 6);
    assert StrLessFrom("--color-link-hover", "--color-list-background", 2);
    assert StrLessFrom("--color-link-hover", "--color-list-background", 0);
  }

  lemma AdjacentKeys10()
    ensures StrLess(TokenKeys[10], TokenKeys[11])
  {
    assert StrLessFrom("--color-list-background", "--color-list-background-alt", 23);
    assert StrLessFrom("--color-list-background", "--color-list-background-alt", 19);
    assert StrLessFrom("--color-list-background", "--color-list-background-alt", 15);
    assert StrLessFrom("--color-list-background", "--color-list-background-alt", 11);
    assert StrLessFrom("--color-list-background", "--color-list-background-alt", 7);
    assert StrLessFrom("--color-list-background", "--color-list-background-alt", 3);
    assert StrLessFrom("--color-list-background", "--color-list-background-alt", 0);
  }

  lemma AdjacentKeys11()
    ensures StrLess(TokenKeys[11], TokenKeys[12])
  {
    assert StrLessFrom("--color-list-background-alt", "--color-list-text", 13);
    assert StrLessFrom("--color-list-background-alt", "--color-list-text", 9);
    assert StrLessFrom("--color-list-background-alt", "--color-list-text", 5);
    assert StrLessFrom("--color-list-background-alt", "--color-list-text", 1);
    assert StrLessFrom("--color-list-background-alt", "--color-list-text", 0);
  }

  lemma AdjacentKeys12()
    ensures StrLess(TokenKeys[12], TokenKeys[13])
  {
    assert StrLessFrom("--color-list-text", "--color-selection-background", 8);
    assert StrLessFrom("--color-list-text", "--color-selection-background", 4);
    assert StrLessFrom("--color-list-text", "--color-selection-background", 0);
  }

  lemma AdjacentKeys13()
    ensures StrLess(TokenKeys[13], TokenKeys[14])
  {
    assert StrLessFrom("--color-selection-background", "--color-selection-text", 18);
    assert StrLessFrom("--color-selection-background", "--color-selection-text", 14);
    assert StrLessFrom("--color-selection-background", "--color-selection-text", 10);
    assert StrLessFrom("--color-selection-background", "--color-selection-text", 6);
    assert StrLessFrom("--color-selection-background", "--color-selection-text", 2);
    assert StrLessFrom("--color-selection-background", "--color-selection-text", 0);
  }

  lemma AdjacentKeys14()
    ensures StrLess(TokenKeys[14], TokenKeys[15])
  {
    assert StrLessFrom("--color-selection-text", "--color-text-primary", 8);
    assert StrLessFrom("--color-selection-text", "--color-text-primary", 4);
    assert StrLessFrom("--color-selection-text", "--color-text-primary", 0);
  }

  lemma AdjacentKeys15()
    ensures StrLess(TokenKeys[15], TokenKeys[16])
  {
    assert StrLessFrom("--color-text-primary", "--color-text-secondary", 13);
    assert StrLessFrom("--color-text-primary", "--color-text-secondary", 9);
    assert StrLessFrom("--color-text-primary", "--color-text-secondary", 5);
    assert StrLessFrom("--color-text-primary", "--color-text-secondary", 1);
    assert StrLessFrom("--color-text-primary", "--color-text-secondary", 0);
  }

  lemma AdjacentKeys16()
    ensures StrLess(TokenKeys[16], TokenKeys[17])
  {
    assert StrLessFrom("--color-text-secondary", "--font-family-base", 2);
    assert StrLessFrom("--color-text-secondary", "--font-family-base", 0);
  }

  lemma AdjacentKeys17()
    ensures StrLess(TokenKeys[17], TokenKeys[18])
  {
    assert StrLessFrom("--font-family-base", "--font-size-base", 7);
    assert StrLessFrom("--font-family-base", "--font-size-base", 3);
    assert StrLessFrom("--font-family-base", "--font-size-base", 0);
  }

  /** The 19 token names, listed here in QMap order, are strictly ascending. */
  lemma TokenKeysSorted()
    ensures forall i, j :: 0 <= i < j < |TokenKeys| ==> StrLess(TokenKeys[i], TokenKeys[j])
  {
    forall i | 0 <= i < |TokenKeys| - 1 ensures StrLess(TokenKeys[i], TokenKeys[i + 1]) {
      if i == 0 {
        AdjacentKeys0();
      } else if i == 1 {
        AdjacentKeys1();
      } else if i == 2 {
        AdjacentKeys2();
      } else if i == 3 {
        AdjacentKeys3();
      } else if i == 4 {
        AdjacentKeys4();
      } else if i == 5 {
        AdjacentKeys5();
      } else if i == 6 {
        AdjacentKeys6();
      } else if i == 7 {
        AdjacentKeys7();
      } else if i == 8 {
        AdjacentKeys8();
      } else if i == 9 {
        AdjacentKeys9();
      } else if i == 10 {
        AdjacentKeys10();
      } else if i == 11 {
        AdjacentKeys11();
      } else if i == 12 {
        AdjacentKeys12();
      } else if i == 13 {
        AdjacentKeys13();
      } else if i == 14 {
        AdjacentKeys14();
      } else if i == 15 {
        AdjacentKeys15();
      } else if i == 16 {
        AdjacentKeys16();
      } else {
        AdjacentKeys17();
      }
    }
    ChainSorted(TokenKeys);
  }

  /** Every token name starts with a dash. */
  lemma TokenKeysDashed()
    ensures forall i :: 0 <= i < |TokenKeys| ==> TokenKeys[i] != [] && TokenKeys[i][0] == '-'
  {
  }

  /** Every theme's table is a well-formed QMap: non-empty keys in ascending
      order. */
  lemma ThemeTokensSorted(theme: Theme)
    ensures KeysSorted(ThemeTokens(theme)) && KeysNonEmpty(ThemeTokens(theme))
  {
    TokenKeysSorted();
    TokenKeysDashed();
    var m := ThemeTokens(theme);
    forall i | 0 <= i < |m| ensures m[i].0 != [] {
      assert m[i].0 == TokenKeys[i];
    }
  }

  /** QMap::value(name, QString()): the value under `name`, or the empty
      string. */
  function TokenValue(m: TokenMap, name: string): (r: string)
    ensures (forall i :: 0 <= i < |m| ==> m[i].0 != name) ==> r == []
  {
    if m == [] then []
    else if m[0].0 == name then m[0].1
    else TokenValue(m[1..], name)
  }

  /** In a sorted map, the value under a key is the one stored with it. */
  lemma {:induction false} TokenValueAt(m: TokenMap, i: nat)
    requires KeysSorted(m) && i < |m|
    ensures TokenValue(m, m[i].0) == m[i].1
  {
    if i > 0 {
      if m[0].0 == m[i].0 {
        StrLessIrreflexive(m[0].0);
        assert false;
      }
      assert KeysSorted(m[1..]) by {
        forall a, b | 0 <= a < b < |m[1..]| ensures StrLess(m[1..][a].0, m[1..][b].0) {
          assert m[1..][a] == m[a + 1] && m[1..][b] == m[b + 1];
        }
      }
      assert m[1..][i - 1] == m[i];
      TokenValueAt(m[1..], i - 1);
    }
  }

  // ---------------------------------------------------------------------------
  // Token substitution

  /** applyTokensToStylesheet as written: QString::replace once per token, in
      ascending key order. A token that is a prefix of another is replaced
      first and spoils every occurrence of the longer one. A text in which
      no token occurs is left alone. */
  function ApplyTokensAsWritten(m: TokenMap, s: string): (r: string)
    requires KeysNonEmpty(m)
    ensures (forall i :: 0 <= i < |m| ==> !Occurs(s, m[i].0)) ==> r == s
  {
    if m == [] then s
    else
      FirstTokenAbsent(m, s);
      ApplyTokensAsWritten(m[1..], ReplaceAll(s, m[0].0, m[0].1))
  }

  /** A text free of every token of `m` is left alone by the first
      replacement, and stays free of the remaining tokens. */
  lemma FirstTokenAbsent(m: TokenMap, s: string)
    requires KeysNonEmpty(m) && m != []
    ensures (forall i :: 0 <= i < |m| ==> !Occurs(s, m[i].0)) ==>
      ReplaceAll(s, m[0].0, m[0].1) == s && forall i :: 0 <= i < |m[1..]| ==> !Occurs(s, m[1..][i].0)
  {
    if forall i :: 0 <= i < |m| ==> !Occurs(s, m[i].0) {
      ReplaceAbsent(s, m[0].0, m[0].1);
      forall i | 0 <= i < |m[1..]| ensures !Occurs(s, m[1..][i].0) {
        assert m[1..][i] == m[i + 1];
      }
    }
  }

  /** The token `m[j].0` alone becomes its own value under the as-written
      order when no other token occurs inside it and no value holds a
      token: it is only the prefix tokens that the ascending order
      mishandles. */
  lemma {:induction false} AsWrittenReplacesUnnestedToken(m: TokenMap, j: nat)
    requires KeysNonEmpty(m) && ValuesTokenFree(m) && j < |m|
    requires forall i :: 0 <= i < |m| && i != j ==> !Occurs(m[j].0, m[i].0)
    ensures ApplyTokensAsWritten(m, m[j].0) == m[j].1
    decreases |m|
  {
    var q := m[1..];
    if j == 0 {
      ReplaceWhole(m[0].0, m[0].1);
      forall i | 0 <= i < |q| ensures !Occurs(m[0].1, q[i].0) {
        assert q[i] == m[i + 1];
      }
    } else {
      ReplaceAbsent(m[j].0, m[0].0, m[0].1);
      assert q[j - 1] == m[j];
      assert ValuesTokenFree(q) by {
        forall a, b | 0 <= a < |q| && 0 <= b < |q| ensures !Occurs(q[b].1, q[a].0) {
          assert q[a] == m[a + 1] && q[b] == m[b + 1];
        }
      }
      forall i | 0 <= i < |q| && i != j - 1 ensures !Occurs(q[j - 1].0, q[i].0) {
        assert q[i] == m[i + 1];
      }
      AsWrittenReplacesUnnestedToken(q, j - 1);
    }
  }

  /** Token substitution in descending key order, so that a token is
      replaced before any token that is a prefix of it. */
  function ApplyTokens(m: TokenMap, s: string): string
    requires KeysNonEmpty(m)
    decreases |m|
  {
    if m == [] then s
    else ApplyTokens(m[..|m| - 1], ReplaceAll(s, m[|m| - 1].0, m[|m| - 1].1))
  }

  /** A text in which no token occurs is left alone. */
  lemma {:induction false} ApplyTokensAbsent(m: TokenMap, s: string)
    requires KeysNonEmpty(m)
    requires forall i :: 0 <= i < |m| ==> !Occurs(s, m[i].0)
    ensures ApplyTokens(m, s) == s
    decreases |m|
  {
    if m != [] {
      ReplaceAbsent(s, m[|m| - 1].0, m[|m| - 1].1);
      ApplyTokensAbsent(m[..|m| - 1], s);
    }
  }

  /** No token occurs in any value. */
  predicate ValuesTokenFree(m: TokenMap) {
    forall i, k :: 0 <= i < |m| && 0 <= k < |m| ==> !Occurs(m[k].1, m[i].0)
  }

  /** A token that occurs inside another comes earlier in the map, as a
      prefix does in key order. */
  predicate NestedTokensEarlier(m: TokenMap) {
    forall i, j :: 0 <= i < |m| && 0 <= j < |m| && i != j && Occurs(m[j].0, m[i].0) ==> i < j
  }


  /** The intended behaviour: every token, even one that another token is a
      prefix of, becomes its own value. */
  lemma {:induction false} DescendingOrderReplacesWholeToken(m: TokenMap, j: nat)
    requires KeysNonEmpty(m) && NestedTokensEarlier(m) && ValuesTokenFree(m)
    requires j < |m|
    ensures ApplyTokens(m, m[j].0) == m[j].1
    decreases |m|
  {
    var n := |m| - 1;
    var p := m[..n];
    assert KeysNonEmpty(p);
    if n == j {
      ReplaceWhole(m[j].0, m[j].1);
      forall i | 0 <= i < |p| ensures !Occurs(m[j].1, p[i].0) {
        assert p[i] == m[i];
      }
      ApplyTokensAbsent(p, m[j].1);
    } else {
      if Occurs(m[j].0, m[n].0) {
        assert false;
      }
      ReplaceAbsent(m[j].0, m[n].0, m[n].1);
      assert p[j] == m[j];
      assert NestedTokensEarlier(p) by {
        forall a, b | 0 <= a < |p| && 0 <= b < |p| && a != b && Occurs(p[b].0, p[a].0) ensures a < b {
          assert p[a] == m[a] && p[b] == m[b];
        }
      }
      assert ValuesTokenFree(p) by {
        forall a, b | 0 <= a < |p| && 0 <= b < |p| ensures !Occurs(p[b].1, p[a].0) {
          assert p[a] == m[a] && p[b] == m[b];
        }
      }
      DescendingOrderReplacesWholeToken(p, j);
    }
  }

  /** The link colours of the Light theme (ThemeManager.cpp lines 144-145):
      ascending-order replacement turns the hover token into the link colour
      followed by "-hover", while descending-order replacement gives the hover
      colour. */
  lemma PrefixTokenClobbered()
    ensures var m := [("--color-link", "#0066CC"), ("--color-link-hover", "#004499")];
      ApplyTokensAsWritten(m, "--color-link-hover") == "#0066CC-hover"
      && ApplyTokens(m, "--color-link-hover") == "#004499"
  {
    var m := [("--color-link", "#0066CC"), ("--color-link-hover", "#004499")];
    var hover := "--color-link-hover";
    assert hover[..12] == "--color-link";
    assert ReplaceAll(hover[12..], m[0].0, m[0].1) == hover[12..];
    assert ReplaceAll(hover, m[0].0, m[0].1) == "#0066CC-hover";
    assert ReplaceAll("#0066CC-hover", m[1].0, m[1].1) == "#0066CC-hover";
    assert m[1..][1..] == [];
    ReplaceWhole(hover, "#004499");
    assert m[..1][..0] == [];
  }

  // ---------------------------------------------------------------------------
  // Preferences

  /** What QSettings holds under "theme/current" and "theme/customPath"
      (None where nothing was stored). */
  datatype Prefs = Prefs(current: Option<Theme>, customPath: Option<string>)

  /** saveThemePreference: the theme always, the custom path only for the
      Custom theme with a non-empty path (an older path stays otherwise). */
  function SavedPrefs(p: Prefs, theme: Theme, path: string): (r: Prefs)
    ensures r.current == Some(theme)
    ensures theme == Custom && path != [] ==> r.customPath == Some(path)
    ensures !(theme == Custom && path != []) ==> r.customPath == p.customPath
  {
    Prefs(Some(theme), if theme == Custom && path != [] then Some(path) else p.customPath)
  }

  /** The theme loadThemePreference reads back, Light by default. */
  function LoadedTheme(p: Prefs): Theme {
    match p.current
    case Some(t) => t
    case None => Light
  }

  /** The custom path after loadThemePreference: read back (empty when none
      is stored) only when the stored theme is Custom; otherwise unchanged. */
  function LoadedPath(p: Prefs, path: string): string {
    if LoadedTheme(p) == Custom then
      match p.customPath
      case Some(c) => c
      case None => []
    else path
  }

  /** Saving then loading restores the theme, restores a non-empty custom
      path of the Custom theme, and leaves the path alone for other themes. */
  lemma PreferenceRoundTrip(p: Prefs, theme: Theme, path: string, current: string)
    ensures LoadedTheme(SavedPrefs(p, theme, path)) == theme
    ensures theme == Custom && path != [] ==> LoadedPath(SavedPrefs(p, theme, path), current) == path
    ensures theme != Custom ==> LoadedPath(SavedPrefs(p, theme, path), current) == current
  {
  }

  /** The Custom theme saved with an empty path reads back whatever path an
      earlier save stored. */
  lemma EmptyCustomPathReadsOlder(p: Prefs, current: string, older: string)
    requires p.customPath == Some(older)
    ensures LoadedPath(SavedPrefs(p, Custom, []), current) == older
  {
  }

  // ---------------------------------------------------------------------------
  // The manager

  /** The stylesheet loadDefaultTheme applies: the theme's file when there is
      one that opens, else the built-in stylesheet, which has its tokens
      replaced once when generated and once more when applied; each time in
      the ascending key order the source walks the token map in. */
  function ThemeSheet(tokens: TokenMap, themeFile: Option<string>): string
    requires KeysNonEmpty(tokens)
  {
    match themeFile
    case Some(text) => ApplyTokensAsWritten(tokens, text)
    case None => ApplyTokensAsWritten(tokens, ApplyTokensAsWritten(tokens, DefaultStylesheet()))
  }

  /** The manager's signals: themeChanged(theme) and tokensChanged(). */
  datatype ThemeEvent = ThemeChanged(theme: Theme) | TokensChanged

  class ThemeManager {
    var currentTheme: Theme
    var tokens: TokenMap
    var customThemePath: string
    /** The processed stylesheet last handed to the application. */
    var stylesheet: string
    var settings: Prefs

    /** The token table is a well-formed QMap. */
    ghost predicate Valid()
      reads this
    {
      KeysSorted(tokens) && KeysNonEmpty(tokens)
    }

    /** The constructor: Light, then the stored preference, then that theme's
        tokens and stylesheet (`themeFile` is the theme's stylesheet file, if
        one is found and opens). */
    constructor (settings: Prefs, themeFile: Option<string>)
      ensures Valid()
      ensures stylesheet == ThemeSheet(tokens, themeFile)
      ensures this.settings == settings
      ensures currentTheme == LoadedTheme(settings) && customThemePath == LoadedPath(settings, [])
      ensures tokens == ThemeTokens(currentTheme)
    {
      currentTheme := Light;
      tokens := [];
      customThemePath := [];
      stylesheet := [];
      this.settings := settings;
      new;
      LoadThemePreference();
      var constructionEvents := LoadDefaultTheme(currentTheme, themeFile);
    }

    /** loadThemeTokens: the whole table is replaced and tokensChanged is
        emitted. */
    method LoadThemeTokens(theme: Theme) returns (emitted: seq<ThemeEvent>)
      modifies this`tokens
      ensures Valid() && tokens == ThemeTokens(theme)
      ensures emitted == [TokensChanged]
    {
      ThemeTokensSorted(theme);
      tokens := ThemeTokens(theme);
      emitted := [TokensChanged];
    }

    /** applyTokensToStylesheet: QString::replace for each token, walking the
        map in ascending key order. */
    method ApplyTokensToStylesheet(sheet: string) returns (processed: string)
      requires Valid()
      ensures processed == ApplyTokensAsWritten(tokens, sheet)
    {
      processed := sheet;
      var i := 0;
      while i < |tokens|
        invariant 0 <= i <= |tokens|
        invariant KeysNonEmpty(tokens[i..])
        invariant ApplyTokensAsWritten(tokens[i..], processed) == ApplyTokensAsWritten(tokens, sheet)
      {
        assert tokens[i..][1..] == tokens[i + 1..];
        processed := ReplaceAll(processed, tokens[i].0, tokens[i].1);
        i := i + 1;
      }
    }

    /** loadDefaultTheme: the theme's tokens (emitting tokensChanged), then
        its stylesheet. */
    method LoadDefaultTheme(theme: Theme, themeFile: Option<string>) returns (emitted: seq<ThemeEvent>)
      modifies this`tokens, this`stylesheet
      ensures Valid() && stylesheet == ThemeSheet(tokens, themeFile)
      ensures tokens == ThemeTokens(theme)
      ensures emitted == [TokensChanged]
    {
      emitted := LoadThemeTokens(theme);
      if themeFile.None? {
        var generated := ApplyTokensToStylesheet(DefaultStylesheet());
        stylesheet := ApplyTokensToStylesheet(generated);
      } else {
        stylesheet := ApplyTokensToStylesheet(themeFile.value);
      }
    }

    /** setTheme: re-selecting the current theme does nothing unless it is
        Custom; otherwise the theme, its tokens and its stylesheet are
        loaded (tokensChanged) and themeChanged is emitted once. */
    method SetTheme(theme: Theme, themeFile: Option<string>) returns (emitted: seq<ThemeEvent>)
      modifies this`currentTheme, this`tokens, this`stylesheet
      ensures old(currentTheme) == theme && theme != Custom ==>
        emitted == [] && currentTheme == old(currentTheme) && tokens == old(tokens) && stylesheet == old(stylesheet)
      ensures !(old(currentTheme) == theme && theme != Custom) ==>
        emitted == [TokensChanged, ThemeChanged(theme)] && currentTheme == theme && Valid()
        && stylesheet == ThemeSheet(tokens, themeFile)
        && tokens == ThemeTokens(theme)
    {
      if currentTheme == theme && theme != Custom {
        return [];
      }
      currentTheme := theme;
      emitted := LoadDefaultTheme(theme, themeFile);
      emitted := emitted + [ThemeChanged(theme)];
    }

    /** loadCustomTheme: a missing file changes nothing; otherwise the path
        and the Custom theme are recorded before the file is read, and the
        stylesheet is applied, with the tokens in place, only if it opens. */
    method LoadCustomTheme(themePath: string, fileExists: bool, content: Option<string>)
      returns (emitted: seq<ThemeEvent>)
      requires Valid()
      modifies this`currentTheme, this`customThemePath, this`stylesheet
      ensures !fileExists ==> (emitted == [] && currentTheme == old(currentTheme)
        && customThemePath == old(customThemePath) && stylesheet == old(stylesheet))
      ensures fileExists ==> currentTheme == Custom && customThemePath == themePath
      ensures fileExists && content.None? ==> emitted == [] && stylesheet == old(stylesheet)
      ensures fileExists && content.Some? ==>
        emitted == [ThemeChanged(Custom)] && stylesheet == ApplyTokensAsWritten(tokens, content.value)
    {
      if !fileExists {
        return [];
      }
      customThemePath := themePath;
      currentTheme := Custom;
      if content.None? {
        return [];
      }
      stylesheet := ApplyTokensToStylesheet(content.value);
      emitted := [ThemeChanged(Custom)];
    }

    /** getToken: the value under the name, or the empty string. */
    function GetToken(name: string): (r: string)
      reads this
      requires Valid()
      ensures (forall i :: 0 <= i < |tokens| ==> tokens[i].0 != name) ==> r == []
      ensures forall i :: 0 <= i < |tokens| && tokens[i].0 == name ==> r == tokens[i].1
    {
      forall i | 0 <= i < |tokens| && tokens[i].0 == name ensures TokenValue(tokens, name) == tokens[i].1 {
        TokenValueAt(tokens, i);
      }
      TokenValue(tokens, name)
    }

    /** saveThemePreference */
    method SaveThemePreference()
      modifies this`settings
      ensures settings == SavedPrefs(old(settings), currentTheme, customThemePath)
    {
      var customPath := settings.customPath;
      if currentTheme == Custom && customThemePath != [] {
        customPath := Some(customThemePath);
      }
      settings := Prefs(Some(currentTheme), customPath);
    }

    /** loadThemePreference */
    method LoadThemePreference()
      modifies this`currentTheme, this`customThemePath
      ensures currentTheme == LoadedTheme(settings)
      ensures customThemePath == LoadedPath(settings, old(customThemePath))
    {
      currentTheme := if settings.current.Some? then settings.current.value else Light;
      if currentTheme == Custom {
        customThemePath := if settings.customPath.Some? then settings.customPath.value else [];
      }
    }
  }

  /** In every built-in table, looking up the i-th token name gives the
      value stored with it. */
  lemma ThemeTokenAt(theme: Theme, i: nat)
    requires theme != Custom && i < |TokenKeys|
    ensures TokenValue(ThemeTokens(theme), TokenKeys[i]) == ThemeTokens(theme)[i].1
  {
    ThemeTokensSorted(theme);
    TokenValueAt(ThemeTokens(theme), i);
  }

  /** The Light table maps the hover token to the hover colour. */
  lemma LightTokenLookups()
    ensures TokenValue(ThemeTokens(Light), "--color-link-hover") == "#004499"
  {
    ThemeTokenAt(Light, 9);
    assert ThemeTokens(Light)[9] == (TokenKeys[9], LightValues[9]);
    assert TokenKeys[9] == "--color-link-hover" && LightValues[9] == "#004499";
  }

  /** A name that is not a token (here: one not starting with a dash) reads as
      the empty string in every theme. */
  lemma UnknownTokenReadsEmpty(theme: Theme, name: string)
    requires name == [] || name[0] != '-'
    ensures TokenValue(ThemeTokens(theme), name) == []
  {
    var m := ThemeTokens(theme);
    TokenKeysDashed();
    forall i | 0 <= i < |m| ensures m[i].0 != name {
      assert m[i].0 == TokenKeys[i];
    }
  }
}

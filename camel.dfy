/**
 * The alias generator of the base model: `snake_case` field names become
 * the `camelCase` element names used on the wire.  `str.split` and
 * `str.title` are modelled on ASCII text.
 */
module Camel {
  import opened Text

  /** Concatenate `parts` with `sep` between neighbours (`sep.join(parts)`). */
  function Join(parts: seq<string>, sep: char): string
    requires |parts| >= 1
  {
    if |parts| == 1 then parts[0] else parts[0] + [sep] + Join(parts[1..], sep)
  }

  /** `s.split(sep)`: at least one piece, no piece holds `sep`, and joining restores `s`. */
  function Split(s: string, sep: char): (parts: seq<string>)
    ensures |parts| >= 1
    ensures forall i :: 0 <= i < |parts| ==> sep !in parts[i]
    ensures Join(parts, sep) == s
  {
    if s == [] then [[]]
    else
      var rest := Split(s[1..], sep);
      if s[0] == sep then [[]] + rest
      else
        assert Join([[s[0]] + rest[0]] + rest[1..], sep) == [s[0]] + Join(rest, sep);
        [[s[0]] + rest[0]] + rest[1..]
  }

  /**
   * `s.title()` continued after a character whose casedness is `prevCased`:
   * a cased character is upper-cased when the one before it is not cased and
   * lower-cased otherwise; other characters are kept.
   */
  function TitleFrom(s: string, prevCased: bool): (r: string)
    ensures |r| == |s|
    ensures forall i :: 0 <= i < |s| ==> r[i] == TitleChar(s[i], if i == 0 then prevCased else IsCased(s[i - 1]))
  {
    if s == [] then []
    else [TitleChar(s[0], prevCased)] + TitleFrom(s[1..], IsCased(s[0]))
  }

  function TitleChar(c: char, prevCased: bool): char {
    if !IsCased(c) then c else if prevCased then Lower(c) else Upper(c)
  }

  /** `s.title()`. */
  function Title(s: string): string {
    TitleFrom(s, false)
  }

  function TitledConcat(parts: seq<string>): string {
    if parts == [] then [] else Title(parts[0]) + TitledConcat(parts[1..])
  }

  /**
   * `_to_camel`: the first `_`-separated piece verbatim, each later piece
   * title-cased.  It agrees with the one-pass reference reading `Scan` on
   * every input.
   */
  function ToCamel(snake: string): (r: string)
    ensures r == Scan(snake, true, false)
  {
    var components := Split(snake, '_');
    ScanFirstPiece(snake);
    components[0] + TitledConcat(components[1..])
  }

  /**
   * A one-pass reference reading of the alias rule, character by character:
   * inside the first piece characters are copied; an `_` is dropped and
   * starts a new piece; later pieces are title-cased as they stream past.
   */
  function Scan(s: string, inFirst: bool, prevCased: bool): string {
    if s == [] then []
    else if s[0] == '_' then Scan(s[1..], false, false)
    else if inFirst then [s[0]] + Scan(s[1..], true, false)
    else [TitleChar(s[0], prevCased)] + Scan(s[1..], false, IsCased(s[0]))
  }

  lemma {:induction false} ScanLaterPieces(s: string, prevCased: bool)
    ensures var parts := Split(s, '_');
      Scan(s, false, prevCased) == TitleFrom(parts[0], prevCased) + TitledConcat(parts[1..])
  {
    if s != [] {
      var rest := Split(s[1..], '_');
      if s[0] == '_' {
        ScanLaterPieces(s[1..], false);
        assert Split(s, '_') == [[]] + rest;
      } else {
        ScanLaterPieces(s[1..], IsCased(s[0]));
        assert Split(s, '_') == [[s[0]] + rest[0]] + rest[1..];
        assert ([s[0]] + rest[0])[1..] == rest[0];
      }
    }
  }

  lemma {:induction false} ScanFirstPiece(s: string)
    ensures var parts := Split(s, '_');
      Scan(s, true, false) == parts[0] + TitledConcat(parts[1..])
  {
    if s != [] {
      var rest := Split(s[1..], '_');
      if s[0] == '_' {
        ScanLaterPieces(s[1..], false);
        assert Split(s, '_') == [[]] + rest;
      } else {
        ScanFirstPiece(s[1..]);
        assert Split(s, '_') == [[s[0]] + rest[0]] + rest[1..];
      }
    }
  }

  lemma {:induction false} ScanKeepsOthers(s: string, inFirst: bool, prevCased: bool)
    ensures '_' !in Scan(s, inFirst, prevCased)
    ensures |Scan(s, inFirst, prevCased)| + multiset(s)['_'] == |s|
    ensures '_' !in s && inFirst ==> Scan(s, inFirst, prevCased) == s
  {
    if s != [] {
      assert s == [s[0]] + s[1..];
      assert multiset(s) == multiset{s[0]} + multiset(s[1..]);
      if s[0] == '_' {
        ScanKeepsOthers(s[1..], false, false);
      } else if inFirst {
        ScanKeepsOthers(s[1..], true, false);
      } else {
        ScanKeepsOthers(s[1..], false, IsCased(s[0]));
      }
    }
  }

  /**
   * The alias never contains `_`, is exactly one character shorter per `_`
   * in the field name, and a name without `_` is its own alias.
   */
  lemma ToCamelShape(snake: string)
    ensures '_' !in ToCamel(snake)
    ensures |ToCamel(snake)| == |snake| - multiset(snake)['_']
    ensures '_' !in snake ==> ToCamel(snake) == snake
  {
    ScanKeepsOthers(snake, true, false);
  }

  /** The alias begins with the field name's `_`-free prefix, unchanged. */
  lemma ToCamelKeepsFirstPiece(snake: string, k: nat)
    requires k <= |snake| && '_' !in snake[..k]
    ensures k <= |ToCamel(snake)| && ToCamel(snake)[..k] == snake[..k]
  {
    ScanKeepsPrefix(snake, k);
  }

  lemma {:induction false} ScanKeepsPrefix(s: string, k: nat)
    requires k <= |s| && '_' !in s[..k]
    ensures k <= |Scan(s, true, false)| && Scan(s, true, false)[..k] == s[..k]
  {
    if k > 0 {
      assert s[0] == s[..k][0];
      assert s[1..][..k - 1] == s[..k][1..];
      ScanKeepsPrefix(s[1..], k - 1);
    }
  }

  /**
   * A later piece made of lower-case letters contributes its first letter
   * upper-cased and the rest as it is: `meta_data_map` gives `metaDataMap`.
   */
  lemma TitleOfLowerWord(w: string)
    requires |w| >= 1 && forall i :: 0 <= i < |w| ==> 'a' <= w[i] <= 'z'
    ensures Title(w) == [Upper(w[0])] + w[1..]
  {
    forall i | 0 <= i < |w|
      ensures Title(w)[i] == ([Upper(w[0])] + w[1..])[i]
    {
      if i > 0 {
        assert IsCased(w[i - 1]);
      }
    }
  }

  /**
   * A field name as Python code spells it: lower-case letters and single
   * underscores, not ending in an underscore.
   */
  predicate IsSnakeName(s: string) {
    && (forall i :: 0 <= i < |s| ==> 'a' <= s[i] <= 'z' || s[i] == '_')
    && (|s| > 0 ==> s[|s| - 1] != '_')
    && (forall i :: 0 <= i < |s| - 1 ==> s[i] == '_' ==> s[i + 1] != '_')
  }

  /** Reading an alias back: each upper-case letter becomes `_` and its lower-case form. */
  function ToSnake(camel: string): string {
    if camel == [] then []
    else (if 'A' <= camel[0] <= 'Z' then ['_', Lower(camel[0])] else [camel[0]]) + ToSnake(camel[1..])
  }

  lemma {:induction false} ScanLaterToSnake(s: string, prevCased: bool)
    requires IsSnakeName(s)
    requires !prevCased ==> s != [] && s[0] != '_'
    ensures ToSnake(Scan(s, false, prevCased)) == if prevCased then s else ['_'] + s
  {
    if s != [] {
      var rest := s[1..];
      assert IsSnakeName(rest);
      if s[0] == '_' {
        assert rest != [] && rest[0] != '_';
        ScanLaterToSnake(rest, false);
      } else {
        ScanLaterToSnake(rest, true);
        var out := [TitleChar(s[0], prevCased)] + Scan(rest, false, true);
        assert out[0] == TitleChar(s[0], prevCased) && out[1..] == Scan(rest, false, true);
      }
    }
  }

  lemma {:induction false} ScanFirstToSnake(s: string)
    requires IsSnakeName(s)
    ensures ToSnake(Scan(s, true, false)) == s
  {
    if s != [] {
      var rest := s[1..];
      assert IsSnakeName(rest);
      if s[0] == '_' {
        assert rest != [] && rest[0] != '_';
        ScanLaterToSnake(rest, false);
      } else {
        ScanFirstToSnake(rest);
        var out := [s[0]] + Scan(rest, true, false);
        assert out[0] == s[0] && out[1..] == Scan(rest, true, false);
      }
    }
  }

  /** On field names, the alias loses nothing: reading it back gives the name. */
  lemma ToCamelRoundTrip(snake: string)
    requires IsSnakeName(snake)
    ensures ToSnake(ToCamel(snake)) == snake
  {
    ScanFirstToSnake(snake);
  }

  /** So two different field names never share an alias. */
  lemma ToCamelInjective(a: string, b: string)
    requires IsSnakeName(a) && IsSnakeName(b) && a != b
    ensures ToCamel(a) != ToCamel(b)
  {
    ToCamelRoundTrip(a);
    ToCamelRoundTrip(b);
  }
}

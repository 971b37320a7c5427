/**
 * The symbol normaliser of the backend: it turns a ticker or currency pair
 * as a user types it into the identifier the market-data provider expects.
 */
module Symbols {
  import opened Text

  /** The fixed alias table: common names that map to provider identifiers. */
  const Aliases: map<string, string> :=
    map["BTC" := "BTC-USD", "BTCUSD" := "BTC-USD", "ETH" := "ETH-USD", "ETHUSD" := "ETH-USD", "TSMC" := "2330.TW"]

  /**
   * A full match of the pattern `^([A-Z]{3})/([A-Z]{3})$`. The string it is
   * applied to is already stripped, so `$` never matches before a final newline.
   */
  predicate IsFxPair(s: string)
  {
    |s| == 7 && s[3] == '/'
    && IsAsciiUpper(s[0]) && IsAsciiUpper(s[1]) && IsAsciiUpper(s[2])
    && IsAsciiUpper(s[4]) && IsAsciiUpper(s[5]) && IsAsciiUpper(s[6])
  }

  /** Three letters, `/`, three letters, in either case: what a user types for a currency pair. */
  predicate IsFxShape(s: string)
  {
    |s| == 7 && s[3] == '/'
    && IsAsciiLetter(s[0]) && IsAsciiLetter(s[1]) && IsAsciiLetter(s[2])
    && IsAsciiLetter(s[4]) && IsAsciiLetter(s[5]) && IsAsciiLetter(s[6])
  }

  /** The provider identifier of a matched pair: group 1, group 2, then `=X`. */
  function FxTicker(s: string): string
    requires IsFxPair(s)
  {
    s[..3] + s[4..] + "=X"
  }

  /** `normalize_symbol`: strip, upper-case, then the currency-pair rule, then the alias table, else unchanged. */
  function Normalize(raw: string): string
  {
    var s := Upper(Strip(raw));
    if IsFxPair(s) then FxTicker(s)
    else if s in Aliases then Aliases[s]
    else s
  }

  /** No key is shadowed by the pair rule, which is tried first; every value is one of three stripped upper-case identifiers. */
  lemma AliasTable()
    ensures forall k :: k in Aliases ==> !IsFxPair(k)
    ensures forall k :: k in Aliases ==> Aliases[k] in {"BTC-USD", "ETH-USD", "2330.TW"}
    ensures forall k :: k in Aliases ==> IsTrimmed(Aliases[k]) && NoLower(Aliases[k])
  {
    assert IsTrimmed("BTC-USD") && NoLower("BTC-USD");
    assert IsTrimmed("ETH-USD") && NoLower("ETH-USD");
    assert IsTrimmed("2330.TW") && NoLower("2330.TW");
  }

  /** A pair identifier is eight characters: the two codes and `=X`, all stripped and upper-case. */
  lemma FxTickerForm(s: string)
    requires IsFxPair(s)
    ensures var r := FxTicker(s);
      |r| == 8 && r[..3] == s[..3] && r[3..6] == s[4..] && r[6..] == "=X"
      && IsTrimmed(r) && NoLower(r)
  {
  }

  /** Every output is stripped and has no lower-case ASCII letter. */
  lemma NormalizeForm(raw: string)
    ensures IsTrimmed(Normalize(raw)) && NoLower(Normalize(raw))
  {
    var s := Upper(Strip(raw));
    StripSpec(raw);
    UpperCanonical(Strip(raw));
    AliasTable();
    if IsFxPair(s) {
      FxTickerForm(s);
    }
  }

  /** Matching after upper-casing makes the pair rule case-insensitive. */
  lemma FxMatchIgnoresCase(t: string)
    ensures IsFxPair(Upper(t)) <==> IsFxShape(t)
  {
    UpperSpec(t);
  }

  /** A stripped input of the form `abc/xyz`, in any case, becomes `ABCXYZ=X`. */
  lemma NormalizeFx(raw: string)
    requires IsFxShape(Strip(raw))
    ensures var t := Strip(raw);
      Normalize(raw) == Upper(t[..3]) + Upper(t[4..]) + "=X"
  {
    var t := Strip(raw);
    FxMatchIgnoresCase(t);
    UpperSpec(t);
    UpperSpec(t[..3]);
    UpperSpec(t[4..]);
    assert Upper(t)[..3] == Upper(t[..3]);
    assert Upper(t)[4..] == Upper(t[4..]);
  }

  /** The alias table, as seen through stripping and upper-casing; the pair rule never shadows it. */
  lemma NormalizeAlias(raw: string)
    ensures var s := Upper(Strip(raw));
      && (s == "BTC" || s == "BTCUSD" ==> Normalize(raw) == "BTC-USD")
      && (s == "ETH" || s == "ETHUSD" ==> Normalize(raw) == "ETH-USD")
      && (s == "TSMC" ==> Normalize(raw) == "2330.TW")
  {
  }

  /** Any other input comes back stripped and upper-cased. */
  lemma NormalizePassThrough(raw: string)
    requires !IsFxShape(Strip(raw)) && Upper(Strip(raw)) !in Aliases
    ensures Normalize(raw) == Upper(Strip(raw))
  {
    FxMatchIgnoresCase(Strip(raw));
  }

  /** No output of the pair rule or the alias table is rewritten again. */
  lemma RewritesAreFixed(s: string)
    ensures IsFxPair(s) ==> !IsFxPair(FxTicker(s)) && FxTicker(s) !in Aliases
    ensures s in Aliases ==> !IsFxPair(Aliases[s]) && Aliases[s] !in Aliases
  {
    AliasTable();
    assert "BTC-USD"[3] == '-' && "ETH-USD"[3] == '-' && "2330.TW"[3] == '0';
  }

  /** On a stripped upper-case input the rules apply to the input itself. */
  lemma NormalizeCanonical(s: string)
    requires IsTrimmed(s) && NoLower(s)
    ensures Normalize(s) == if IsFxPair(s) then FxTicker(s) else if s in Aliases then Aliases[s] else s
  {
    StripTrimmed(s);
    UpperCanonical(s);
  }

  /** Normalising twice gives the same identifier as normalising once. */
  lemma NormalizeIdempotent(raw: string)
    ensures Normalize(Normalize(raw)) == Normalize(raw)
  {
    var r := Normalize(raw);
    NormalizeForm(raw);
    NormalizeCanonical(r);
    RewritesAreFixed(Upper(Strip(raw)));
  }

  /** A non-blank input never normalises to the empty string. */
  lemma NormalizeNonEmpty(raw: string)
    requires Strip(raw) != []
    ensures Normalize(raw) != []
  {
    UpperSpec(Strip(raw));
    AliasTable();
  }

  /** The demonstration watchlist rows the backend seeds an empty database with: symbol, stored normal form, label. */
  const SeedWatchlist: seq<(string, string, string)> :=
    [("2330.TW", "2330.TW", "TSMC"), ("USD/TWD", "USDTWD=X", "USD/TWD"),
     ("BTC-USD", "BTC-USD", "Bitcoin"), ("AAPL", "AAPL", "Apple")]

  /** The demonstration alert rows: symbol, stored normal form, name, condition, enabled flag. */
  const SeedAlerts: seq<(string, string, string, string, int)> :=
    [("USD/TWD", "USDTWD=X", "美元破位買進", "price >= 33.0", 1),
     ("2330.TW", "2330.TW", "TSMC 買點", "price <= 800", 0)]

  /** A stripped upper-case input that neither rule rewrites is its own normal form. */
  lemma NormalizeFixedPoint(s: string)
    requires IsTrimmed(s) && NoLower(s) && !IsFxPair(s) && s !in Aliases
    ensures Normalize(s) == s
  {
    NormalizeCanonical(s);
  }

  /** Every seeded watchlist row stores the normal form of its symbol. */
  lemma SeedWatchlistAgrees(i: int)
    requires 0 <= i < |SeedWatchlist|
    ensures Normalize(SeedWatchlist[i].0) == SeedWatchlist[i].1
  {
    if i == 0 {
      NormalizeFixedPoint("2330.TW");
    } else if i == 1 {
      SeedPair();
    } else if i == 2 {
      NormalizeFixedPoint("BTC-USD");
    } else {
      NormalizeFixedPoint("AAPL");
    }
  }

  /** The seeded pair `USD/TWD` is stored as `USDTWD=X`. */
  lemma SeedPair()
    ensures Normalize("USD/TWD") == "USDTWD=X"
  {
    assert IsTrimmed("USD/TWD") && NoLower("USD/TWD") && IsFxPair("USD/TWD");
    NormalizeCanonical("USD/TWD");
  }

  /** Every seeded alert row stores the normal form of its symbol. */
  lemma SeedAlertsAgree(i: int)
    requires 0 <= i < |SeedAlerts|
    ensures Normalize(SeedAlerts[i].0) == SeedAlerts[i].1
  {
    if i == 0 {
      SeedWatchlistAgrees(1);
    } else {
      SeedWatchlistAgrees(0);
    }
  }

  /** The pair rule matches after upper-casing, so a lower-case pair is rewritten too. */
  lemma LowerCasePairExample()
    ensures Normalize("usd/twd") == "USDTWD=X"
  {
    assert Upper("usd/twd") == "USD/TWD";
  }

  /** Surrounding blanks and case do not hide an alias. */
  lemma PaddedAliasExample()
    ensures Normalize(" tsmc ") == "2330.TW"
  {
    assert Strip(" tsmc ") == "tsmc";
    assert Upper("tsmc") == "TSMC";
  }
}

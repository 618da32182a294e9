/** actions/cvmApi.ts: looking a Brazilian fund up by its CNPJ in the CVM
    register, guessing its B3 ticker, and the unified ticker-or-CNPJ search.
    The downloaded CSV, the brapi list of stocks and the brapi quote answer are
    parameters; `None` stands for a failed request. */
module CvmApi {
  import opened Common

  // ---------------------------------------------------------------- CNPJ

  predicate AllDigits(s: string)
  {
    forall i :: 0 <= i < |s| ==> IsDigit(s[i])
  }

  /** `cnpj.replace(/[^\d]/g, '')`. */
  function CleanCnpj(s: string): (r: string)
    ensures AllDigits(r)
    ensures |r| <= |s|
  {
    if s == [] then [] else CleanCnpj(s[..|s| - 1]) + (if IsDigit(s[|s| - 1]) then [s[|s| - 1]] else [])
  }

  /** Cleaning works piece by piece. */
  lemma {:induction false} CleanAppend(a: string, b: string)
    ensures CleanCnpj(a + b) == CleanCnpj(a) + CleanCnpj(b)
  {
    if b != [] {
      var b' := b[..|b| - 1];
      assert (a + b)[..|a + b| - 1] == a + b';
      CleanAppend(a, b');
    } else {
      assert a + b == a;
    }
  }

  /** A string of digits is left as it is. */
  lemma {:induction false} CleanOfDigits(s: string)
    requires AllDigits(s)
    ensures CleanCnpj(s) == s
  {
    if s != [] {
      CleanOfDigits(s[..|s| - 1]);
    }
  }

  /** Any other character is dropped wherever it stands. */
  lemma CleanDropsOthers(a: string, c: char, b: string)
    requires !IsDigit(c)
    ensures CleanCnpj(a + [c] + b) == CleanCnpj(a + b)
  {
    CleanAppend(a + [c], b);
    CleanAppend(a, [c]);
    CleanAppend(a, b);
    assert CleanCnpj([c]) == [];
  }

  /** Cleaning twice is cleaning once. */
  lemma CleanIdempotent(s: string)
    ensures CleanCnpj(CleanCnpj(s)) == CleanCnpj(s)
  {
    CleanOfDigits(CleanCnpj(s));
  }

  /** The digit groups of a CNPJ, `99.999.999/9999-99`, and the separator
      allowed after each but the last. */
  const Groups: seq<nat> := [2, 3, 3, 4, 2]
  const Seps: seq<char> := ['.', '.', '/', '-']

  /** The digits in groups `g` and after. */
  function Width(g: nat): nat
    decreases 5 - g
  {
    if g >= 5 then 0 else Groups[g] + Width(g + 1)
  }

  /** `/^\d{2}\.?\d{3}\.?\d{3}\/?\d{4}-?\d{2}$/` from group `g` on. */
  predicate MatchFrom(s: string, g: nat)
    requires g < 5
    decreases 5 - g
  {
    && |s| >= Groups[g]
    && AllDigits(s[..Groups[g]])
    && var rest := s[Groups[g]..];
       if g == 4 then rest == []
       else MatchFrom(rest, g + 1) || (|rest| > 0 && rest[0] == Seps[g] && MatchFrom(rest[1..], g + 1))
  }

  /** The test `cnpjPattern.test(query.trim())`. */
  predicate IsCnpj(query: string)
  {
    MatchFrom(Trim(query), 0)
  }

  /** A separator is no digit, so cleaning drops it. */
  lemma CleanOfSeparator(g: nat)
    requires g < 4
    ensures !IsDigit(Seps[g]) && CleanCnpj([Seps[g]]) == []
  {
    var c := Seps[g];
    assert c == '.' || c == '/' || c == '-';
    assert [c][..0] == [];
  }

  /** The optional separator after group `g`. */
  function SepPart(g: nat, flag: bool): (r: string)
    requires g < 4
    ensures CleanCnpj(r) == []
  {
    CleanOfSeparator(g);
    if flag then [Seps[g]] else []
  }

  /** The digits `d` laid out from group `g` on, with the separators `flags`
      asks for. */
  function Layout(d: string, g: nat, flags: seq<bool>): string
    requires g < 5 && |flags| == 4 && |d| == Width(g)
    decreases 5 - g
  {
    var n := Groups[g];
    if g == 4 then d
    else d[..n] + SepPart(g, flags[g]) + Layout(d[n..], g + 1, flags)
  }

  /** The flags of the groups already behind do not matter. */
  lemma {:induction false} LayoutIgnoresEarlier(d: string, g: nat, f: seq<bool>, f': seq<bool>)
    requires g < 5 && |f| == 4 && |f'| == 4 && |d| == Width(g)
    requires forall j :: g <= j < 4 ==> f[j] == f'[j]
    ensures Layout(d, g, f) == Layout(d, g, f')
    decreases 5 - g
  {
    if g < 4 {
      LayoutIgnoresEarlier(d[Groups[g]..], g + 1, f, f');
    }
  }

  /** Digits, an optional separator and a match of the next group match. */
  lemma MatchOfParts(h: string, g: nat, flag: bool, tail: string)
    requires g < 4 && |h| == Groups[g] && AllDigits(h) && MatchFrom(tail, g + 1)
    ensures MatchFrom(h + SepPart(g, flag) + tail, g)
  {
    var s := h + SepPart(g, flag) + tail;
    assert s[..Groups[g]] == h;
    assert s[Groups[g]..] == SepPart(g, flag) + tail;
    if flag {
      assert s[Groups[g]..][1..] == tail;
    }
  }

  /** Cleaning digits, an optional separator and more gives the digits first. */
  lemma CleanOfParts(h: string, g: nat, flag: bool, tail: string)
    requires g < 4 && AllDigits(h)
    ensures CleanCnpj(h + SepPart(g, flag) + tail) == h + CleanCnpj(tail)
  {
    var sep := SepPart(g, flag);
    var x := h + sep;
    CleanAppend(x, tail);
    CleanAppend(h, sep);
    CleanOfDigits(h);
    assert CleanCnpj(x) == h + [];
    assert h + [] == h;
  }

  /** Digits cut in two are digits on both sides. */
  lemma DigitsSplit(d: string, n: nat) returns (h: string, rest: string)
    requires AllDigits(d) && n <= |d|
    ensures h == d[..n] && rest == d[n..] && h + rest == d
    ensures AllDigits(h) && AllDigits(rest)
  {
    h, rest := d[..n], d[n..];
    assert AllDigits(h);
    assert AllDigits(rest);
  }

  /** Every layout of digits matches, and cleaning gives the digits back. */
  lemma {:induction false} LayoutMatches(d: string, g: nat, flags: seq<bool>)
    requires g < 5 && |flags| == 4 && |d| == Width(g) && AllDigits(d)
    ensures MatchFrom(Layout(d, g, flags), g)
    ensures CleanCnpj(Layout(d, g, flags)) == d
    decreases 5 - g
  {
    if g == 4 {
      CleanOfDigits(d);
    } else {
      var n := Groups[g];
      var h, rest := DigitsSplit(d, n);
      var tail := Layout(rest, g + 1, flags);
      LayoutMatches(rest, g + 1, flags);
      assert Layout(d, g, flags) == h + SepPart(g, flags[g]) + tail;
      MatchOfParts(h, g, flags[g], tail);
      CleanOfParts(h, g, flags[g], tail);
    }
  }

  /** A match from group `g` is digits, an optional separator and a match of
      the next group. */
  lemma MatchParts(s: string, g: nat) returns (flag: bool, tail: string)
    requires g < 4 && MatchFrom(s, g)
    ensures s == s[..Groups[g]] + SepPart(g, flag) + tail && MatchFrom(tail, g + 1)
    ensures AllDigits(s[..Groups[g]])
  {
    var rest := s[Groups[g]..];
    assert s == s[..Groups[g]] + rest;
    if MatchFrom(rest, g + 1) {
      flag, tail := false, rest;
    } else {
      flag, tail := true, rest[1..];
      assert rest == [Seps[g]] + tail;
    }
  }

  /** Everything that matches is a layout of its own cleaned digits, with the
      separators `flags` says. */
  lemma {:induction false} MatchIsLayout(s: string, g: nat) returns (flags: seq<bool>)
    requires g < 5 && MatchFrom(s, g)
    ensures |CleanCnpj(s)| == Width(g)
    ensures |flags| == 4 && s == Layout(CleanCnpj(s), g, flags)
    decreases 5 - g
  {
    var n := Groups[g];
    if g == 4 {
      assert s == s[..n];
      CleanOfDigits(s);
      flags := [false, false, false, false];
    } else {
      var flag, tail := MatchParts(s, g);
      var h := s[..n];
      var f := MatchIsLayout(tail, g + 1);
      CleanOfParts(h, g, flag, tail);
      var c := CleanCnpj(tail);
      flags := f[g := flag];
      LayoutIgnoresEarlier(c, g + 1, f, flags);
      var d := h + c;
      assert d[..n] == h && d[n..] == c;
      assert Layout(d, g, flags) == h + SepPart(g, flag) + Layout(c, g + 1, flags);
    }
  }

  /** A query is taken for a CNPJ exactly when, trimmed, it is 14 digits with
      any of the separators `.`, `.`, `/`, `-` at their places. */
  lemma CnpjPattern(query: string)
    ensures IsCnpj(query) <==>
      exists d, flags :: |d| == 14 && AllDigits(d) && |flags| == 4 && Trim(query) == Layout(d, 0, flags)
  {
    assert Width(0) == 14;
    if IsCnpj(query) {
      var flags := MatchIsLayout(Trim(query), 0);
      assert |CleanCnpj(Trim(query))| == 14 && Trim(query) == Layout(CleanCnpj(Trim(query)), 0, flags);
    }
    if exists d, flags :: |d| == 14 && AllDigits(d) && |flags| == 4 && Trim(query) == Layout(d, 0, flags) {
      var d, flags :| |d| == 14 && AllDigits(d) && |flags| == 4 && Trim(query) == Layout(d, 0, flags);
      LayoutMatches(d, 0, flags);
    }
  }

  /** A query taken for a CNPJ cleans to exactly 14 digits. */
  lemma CnpjQueryCleansTo14Digits(query: string)
    requires IsCnpj(query)
    ensures |CleanCnpj(Trim(query))| == 14
  {
    var _ := MatchIsLayout(Trim(query), 0);
  }

  // ---------------------------------------------------------------- CVM register

  /** The fields `searchFundByCNPJ` returns. */
  datatype Fund = Fund(cnpj: string, nome: string, tipo: string, ticker: Option<string>)

  /** `parts[i] || fallback`: a missing or empty field gives the fallback. */
  function Field(parts: seq<string>, i: nat, fallback: string): (r: string)
    ensures fallback != "" ==> r != ""
  {
    if i < |parts| && parts[i] != "" then parts[i] else fallback
  }

  /** The fund read from a matching CSV line. */
  function FundOf(line: string, clean: string): (f: Fund)
    ensures f.ticker.None? && f.nome != "" && f.tipo != ""
    ensures clean != "" ==> f.cnpj != ""
    ensures var cols := Split(line, ';');
      && (cols[0] != "" ==> f.cnpj == cols[0])
      && (cols[0] == "" ==> f.cnpj == clean)
      && (|cols| > 1 && cols[1] != "" ==> f.nome == cols[1])
      && (|cols| <= 1 || cols[1] == "" ==> f.nome == "Fundo sem nome")
      && (|cols| > 4 && cols[4] != "" ==> f.tipo == cols[4])
      && (|cols| <= 4 || cols[4] == "" ==> f.tipo == "Indefinido")
  {
    var parts := Split(line, ';');
    Fund(Field(parts, 0, clean), Field(parts, 1, "Fundo sem nome"), Field(parts, 4, "Indefinido"), None)
  }

  /** The first line at or after `i` that contains `needle`. */
  function FirstRowFrom(lines: seq<string>, needle: string, i: nat): (r: Option<nat>)
    decreases |lines| - i
    ensures r.Some? ==> i <= r.value < |lines| && Contains(lines[r.value], needle)
    ensures r.Some? ==> forall j :: i <= j < r.value ==> !Contains(lines[j], needle)
    ensures r.None? ==> forall j :: i <= j < |lines| ==> !Contains(lines[j], needle)
  {
    if i >= |lines| then None
    else if Contains(lines[i], needle) then Some(i)
    else FirstRowFrom(lines, needle, i + 1)
  }

  /** What `searchFundByCNPJ(cnpj)` answers for the register `csv`: the first
      line after the header that contains the cleaned CNPJ. */
  function FundLookup(cnpj: string, csv: Option<string>): Option<Fund>
  {
    if csv.None? then None
    else
      var lines := Split(csv.value, '\n');
      match FirstRowFrom(lines, CleanCnpj(cnpj), 1)
      case None => None
      case Some(i) => Some(FundOf(lines[i], CleanCnpj(cnpj)))
  }

  /** `searchFundByCNPJ`, its `for` loop over the lines of the register. */
  method SearchFundByCnpj(cnpj: string, csv: Option<string>) returns (fund: Option<Fund>)
    ensures fund == FundLookup(cnpj, csv)
  {
    var clean := CleanCnpj(cnpj);
    if csv.None? {
      return None;
    }
    var lines := Split(csv.value, '\n');
    for i := 1 to |lines|
      invariant FirstRowFrom(lines, clean, 1) == FirstRowFrom(lines, clean, i)
    {
      if Contains(lines[i], clean) {
        return Some(FundOf(lines[i], clean));
      }
    }
    fund := None;
  }

  /** A fund is found exactly when the register came and some line after the
      header contains the cleaned CNPJ; it is then read from the first such
      line. */
  lemma FundLookupFinds(cnpj: string, csv: Option<string>)
    ensures FundLookup(cnpj, csv).Some? <==>
      csv.Some? && exists i :: 1 <= i < |Split(csv.value, '\n')| && Contains(Split(csv.value, '\n')[i], CleanCnpj(cnpj))
    ensures FundLookup(cnpj, csv).Some? ==>
      exists i :: 1 <= i < |Split(csv.value, '\n')| && Contains(Split(csv.value, '\n')[i], CleanCnpj(cnpj))
        && (forall j :: 1 <= j < i ==> !Contains(Split(csv.value, '\n')[j], CleanCnpj(cnpj)))
        && FundLookup(cnpj, csv) == Some(FundOf(Split(csv.value, '\n')[i], CleanCnpj(cnpj)))
  {
    if csv.Some? {
      var lines := Split(csv.value, '\n');
      var r := FirstRowFrom(lines, CleanCnpj(cnpj), 1);
      if r.Some? {
        assert Contains(lines[r.value], CleanCnpj(cnpj));
      }
    }
  }

  /** An empty search key is contained in every line, so it finds the first
      row after the header whenever there is one. */
  lemma EmptyKeyFindsFirstRow(cnpj: string, csv: string)
    requires CleanCnpj(cnpj) == ""
    requires |Split(csv, '\n')| >= 2
    ensures FundLookup(cnpj, Some(csv)) == Some(FundOf(Split(csv, '\n')[1], ""))
  {
    assert OccursAt(Split(csv, '\n')[1], "", 0);
  }

  // ---------------------------------------------------------------- ticker guess

  /** One entry of brapi's `available` list. */
  datatype Stock = Stock(stock: string, name: Option<string>)

  /** `fundName.toLowerCase().split(' ')`. */
  function Words(fundName: string): seq<string>
  {
    Split(Lower(fundName), ' ')
  }

  /** `stock.name?.toLowerCase() || ''`. */
  function StockName(s: Stock): string
  {
    if s.name.Some? then Lower(s.name.value) else ""
  }

  /** A word counts when it is longer than three characters and occurs in the
      stock's name. */
  predicate Hits(word: string, stockName: string)
  {
    |word| > 3 && Contains(stockName, word)
  }

  /** `matches.length`: the words that count, repeated ones once per repeat. */
  function MatchCount(words: seq<string>, stockName: string): (n: nat)
    ensures n <= |words|
  {
    if words == [] then 0
    else MatchCount(words[..|words| - 1], stockName) + (if Hits(words[|words| - 1], stockName) then 1 else 0)
  }

  /** At least two matching words means two distinct positions of the fund's
      name whose words both count, and back. */
  lemma TwoMatches(words: seq<string>, stockName: string)
    ensures MatchCount(words, stockName) >= 2 <==>
      exists i, j :: 0 <= i < j < |words| && Hits(words[i], stockName) && Hits(words[j], stockName)
  {
    if MatchCount(words, stockName) >= 2 {
      var i, j := TwoHits(words, stockName);
    }
    if exists i, j :: 0 <= i < j < |words| && Hits(words[i], stockName) && Hits(words[j], stockName) {
      var i, j :| 0 <= i < j < |words| && Hits(words[i], stockName) && Hits(words[j], stockName);
      CountFromTwo(words, stockName, i, j);
    }
  }

  /** At least one matching word means some word of the name counts. */
  lemma OneMatch(words: seq<string>, stockName: string)
    ensures MatchCount(words, stockName) >= 1 <==> exists i :: 0 <= i < |words| && Hits(words[i], stockName)
  {
    if MatchCount(words, stockName) >= 1 {
      var i := OneHit(words, stockName);
    }
    if exists i :: 0 <= i < |words| && Hits(words[i], stockName) {
      var i :| 0 <= i < |words| && Hits(words[i], stockName);
      CountFromOne(words, stockName, i);
    }
  }

  lemma {:induction false} OneHit(words: seq<string>, stockName: string) returns (i: int)
    requires MatchCount(words, stockName) >= 1
    ensures 0 <= i < |words| && Hits(words[i], stockName)
  {
    var p := words[..|words| - 1];
    if Hits(words[|words| - 1], stockName) {
      i := |words| - 1;
    } else {
      i := OneHit(p, stockName);
      assert words[i] == p[i];
    }
  }

  lemma {:induction false} TwoHits(words: seq<string>, stockName: string) returns (i: int, j: int)
    requires MatchCount(words, stockName) >= 2
    ensures 0 <= i < j < |words| && Hits(words[i], stockName) && Hits(words[j], stockName)
  {
    var p := words[..|words| - 1];
    if Hits(words[|words| - 1], stockName) {
      i := OneHit(p, stockName);
      j := |words| - 1;
      assert words[i] == p[i];
    } else {
      i, j := TwoHits(p, stockName);
      assert words[i] == p[i] && words[j] == p[j];
    }
  }

  lemma {:induction false} CountFromOne(words: seq<string>, stockName: string, i: int)
    requires 0 <= i < |words| && Hits(words[i], stockName)
    ensures MatchCount(words, stockName) >= 1
  {
    var p := words[..|words| - 1];
    if i < |words| - 1 {
      assert p[i] == words[i];
      CountFromOne(p, stockName, i);
    }
  }

  lemma {:induction false} CountFromTwo(words: seq<string>, stockName: string, i: int, j: int)
    requires 0 <= i < j < |words| && Hits(words[i], stockName) && Hits(words[j], stockName)
    ensures MatchCount(words, stockName) >= 2
  {
    var p := words[..|words| - 1];
    assert p[i] == words[i];
    if j < |words| - 1 {
      assert p[j] == words[j];
      CountFromTwo(p, stockName, i, j);
    } else {
      CountFromOne(p, stockName, i);
    }
  }

  predicate Resembles(s: Stock, words: seq<string>)
  {
    MatchCount(words, StockName(s)) >= 2
  }

  /** The first stock at or after `i` whose name resembles the fund's. */
  function FirstStockFrom(stocks: seq<Stock>, words: seq<string>, i: nat): (r: Option<nat>)
    decreases |stocks| - i
    ensures r.Some? ==> i <= r.value < |stocks| && Resembles(stocks[r.value], words)
    ensures r.Some? ==> forall j :: i <= j < r.value ==> !Resembles(stocks[j], words)
    ensures r.None? ==> forall j :: i <= j < |stocks| ==> !Resembles(stocks[j], words)
  {
    if i >= |stocks| then None
    else if Resembles(stocks[i], words) then Some(i)
    else FirstStockFrom(stocks, words, i + 1)
  }

  /** What `findTickerForFund(fundName, _)` answers for the list `available`. */
  function TickerLookup(fundName: string, available: Option<seq<Stock>>): Option<string>
  {
    if available.None? then None
    else
      match FirstStockFrom(available.value, Words(fundName), 0)
      case None => None
      case Some(i) => Some(available.value[i].stock)
  }

  /** A ticker is found exactly when some listed stock resembles the fund,
      and it is then the first such stock's. */
  lemma TickerLookupFinds(fundName: string, available: Option<seq<Stock>>)
    ensures TickerLookup(fundName, available).Some? <==>
      available.Some? && exists i :: 0 <= i < |available.value| && Resembles(available.value[i], Words(fundName))
    ensures TickerLookup(fundName, available).Some? ==>
      exists i :: 0 <= i < |available.value| && Resembles(available.value[i], Words(fundName))
        && (forall j :: 0 <= j < i ==> !Resembles(available.value[j], Words(fundName)))
        && TickerLookup(fundName, available) == Some(available.value[i].stock)
  {
    if available.Some? {
      var r := FirstStockFrom(available.value, Words(fundName), 0);
      if r.Some? {
        assert Resembles(available.value[r.value], Words(fundName));
      }
    }
  }

  /** `findTickerForFund`, its `for` loop over the stocks. */
  method FindTickerForFund(fundName: string, available: Option<seq<Stock>>) returns (ticker: Option<string>)
    ensures ticker == TickerLookup(fundName, available)
  {
    if available.None? {
      return None;
    }
    var stocks := available.value;
    var words := Words(fundName);
    for i := 0 to |stocks|
      invariant FirstStockFrom(stocks, words, 0) == FirstStockFrom(stocks, words, i)
    {
      var count := 0;
      var name := StockName(stocks[i]);
      for k := 0 to |words|
        invariant count == MatchCount(words[..k], name)
      {
        assert words[..k + 1][..k] == words[..k];
        if |words[k]| > 3 && Contains(name, words[k]) {
          count := count + 1;
        }
      }
      assert words[..|words|] == words;
      if count >= 2 {
        return Some(stocks[i].stock);
      }
    }
    ticker := None;
  }

  // ---------------------------------------------------------------- unified search

  /** One entry of brapi's `results` for a ticker quote; absent texts are "". */
  datatype BrapiResult = BrapiResult(symbol: string, longName: string, shortName: string, kind: string, price: Option<real>)

  datatype Asset =
    | FundAsset(symbol: string, name: string, cnpj: string, hasTicker: bool)
    | TickerAsset(symbol: string, name: string, kind: string, price: Option<real>)

  /** `a || b` on strings. */
  function OrElse(a: string, b: string): string
  {
    if a != "" then a else b
  }

  /** The fund answer: shown under its ticker when one was found, else under
      its CNPJ. */
  function FundAssetOf(fund: Fund, ticker: Option<string>): (a: Asset)
    ensures a.FundAsset? && a.name == fund.nome && a.cnpj == fund.cnpj
    ensures a.hasTicker <==> ticker.Some? && ticker.value != ""
    ensures a.hasTicker ==> a.symbol == ticker.value
    ensures !a.hasTicker ==> a.symbol == fund.cnpj
  {
    var t := if ticker.Some? then ticker.value else "";
    FundAsset(OrElse(t, fund.cnpj), fund.nome, fund.cnpj, t != "")
  }

  /** The ticker answer from brapi's quote response: the first result, named by
      its long name, else its short name, else its symbol; typed "STOCK" when
      the type is missing. A failed request or no result gives null. */
  function TickerAssetOf(results: Option<seq<BrapiResult>>): (a: Option<Asset>)
    ensures a.Some? <==> results.Some? && |results.value| > 0
    ensures a.Some? ==> a.value.TickerAsset? && a.value.kind != "" && a.value.symbol == results.value[0].symbol
    ensures a.Some? && results.value[0].symbol != "" ==> a.value.name != ""
    ensures a.Some? ==> var r := results.value[0];
      && (r.longName != "" ==> a.value.name == r.longName)
      && (r.longName == "" && r.shortName != "" ==> a.value.name == r.shortName)
      && (r.longName == "" && r.shortName == "" ==> a.value.name == r.symbol)
      && (r.kind != "" ==> a.value.kind == r.kind)
      && (r.kind == "" ==> a.value.kind == "STOCK")
      && a.value.price == r.price
  {
    if results.None? || |results.value| == 0 then None
    else
      var r := results.value[0];
      Some(TickerAsset(r.symbol, OrElse(r.longName, OrElse(r.shortName, r.symbol)), OrElse(r.kind, "STOCK"), r.price))
  }

  /** `searchAssetUnified(query)`: a CNPJ goes to the CVM register and then to
      the ticker guess, anything else to brapi's quote. */
  method SearchAssetUnified(query: string, csv: Option<string>, available: Option<seq<Stock>>,
                            results: Option<seq<BrapiResult>>) returns (asset: Option<Asset>)
    ensures IsCnpj(query) ==> asset == match FundLookup(Trim(query), csv)
                                      case None => None
                                      case Some(f) => Some(FundAssetOf(f, TickerLookup(f.nome, available)))
    ensures IsCnpj(query) && asset.Some? ==> asset.value.FundAsset? && asset.value.cnpj != ""
    ensures !IsCnpj(query) ==> asset == TickerAssetOf(results)
  {
    var cleanQuery := Trim(query);
    if MatchFrom(cleanQuery, 0) {
      CnpjQueryCleansTo14Digits(query);
      var fundData := SearchFundByCnpj(cleanQuery, csv);
      if fundData.Some? {
        var ticker := FindTickerForFund(fundData.value.nome, available);
        return Some(FundAssetOf(fundData.value, ticker));
      }
      return None;
    }
    asset := TickerAssetOf(results);
  }
}

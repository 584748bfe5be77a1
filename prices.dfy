/** The price table (`get_price`): for each billed date written `D/M/Y`, the
    hourly PCB prices of the archive document published for `Y-M-D`, keyed
    by the hour that ends each interval and converted from per-MWh to
    per-kWh. */
module Prices {
  import opened Outcomes
  import opened Text

  /** One element of the archive's `PVPC` list: the `Hora` label (`"H1-H2"`)
      and the `PCB` price per MWh written with a decimal comma. */
  datatype PvpcEntry = PvpcEntry(hora: string, pcb: string)

  /** Archive documents by the `Y-M-D` date they were requested for; a date
      without a `PVPC` list is absent. */
  type Archive = map<string, seq<PvpcEntry>>

  /** Hour key to price per kWh, for one date. */
  type HourTable = map<string, real>

  /** Date string as it appears in the records to its hour table. */
  type PriceTable = map<string, HourTable>

  // ---------------------------------------------------------------------
  // Dates
  // ---------------------------------------------------------------------

  /** The date splits on `/` into exactly three parts. */
  predicate IsDmy(date: string) {
    |Split(date, '/')| == 3
  }

  /** The archive's key for a `D/M/Y` date: `Y-M-D`, parts copied verbatim,
      so that for a date without `-` splitting the key on `-` gives the
      date's parts in reverse order. */
  function DateKey(date: string): (key: string)
    requires IsDmy(date)
    ensures '-' !in date ==> Split(key, '-') == [Split(date, '/')[2], Split(date, '/')[1], Split(date, '/')[0]]
  {
    var e := Split(date, '/');
    if '-' in date then e[2] + "-" + e[1] + "-" + e[0]
    else
      JoinSplit(date, '/');
      PiecesExclude(e, '/', '-');
      assert e[2] + "-" + e[1] + "-" + e[0] == e[2] + ['-'] + e[1] + ['-'] + e[0];
      Split3(e[2], e[1], e[0], '-');
      e[2] + "-" + e[1] + "-" + e[0]
  }

  /** `j.get('PVPC', [])`. */
  function PvpcOf(docs: Archive, key: string): seq<PvpcEntry> {
    if key in docs then docs[key] else []
  }

  /** The key reverses the three parts of the date and joins them with `-`. */
  lemma DateKeyOfParts(d: string, m: string, y: string)
    requires '/' !in d && '/' !in m && '/' !in y
    ensures IsDmy(d + "/" + m + "/" + y)
    ensures DateKey(d + "/" + m + "/" + y) == y + "-" + m + "-" + d
  {
    assert d + "/" + m + "/" + y == d + ['/'] + m + ['/'] + y;
    Split3(d, m, y, '/');
  }

  /** A character absent from a join is absent from each joined piece. */
  lemma PiecesExclude(e: seq<string>, sep: char, c: char)
    requires |e| == 3 && c !in Join(e, sep)
    ensures c !in e[0] && c !in e[1] && c !in e[2]
  {
    assert e[1..][1..] == [e[2]];
    assert Join(e[1..], sep) == e[1] + [sep] + e[2];
    assert Join(e, sep) == e[0] + [sep] + (e[1] + [sep] + e[2]);
    assert c !in e[1] + [sep] + e[2];
  }

  /** Dates without `-` that get the same key are the same date. */
  lemma DateKeyInjective(a: string, b: string)
    requires IsDmy(a) && IsDmy(b) && '-' !in a && '-' !in b
    requires DateKey(a) == DateKey(b)
    ensures a == b
  {
    var ea, eb := Split(a, '/'), Split(b, '/');
    assert ea == [eb[0], eb[1], eb[2]] == eb;
    JoinSplit(a, '/');
    JoinSplit(b, '/');
  }

  // ---------------------------------------------------------------------
  // One PVPC entry
  // ---------------------------------------------------------------------

  /** `str(int(h['Hora'].split('-')[1]))`: the hour that ends the interval,
      written back so that `int()` reads the same hour from the key.
      IndexError without a `-`, ValueError when that part is not an
      integer. */
  function HourKey(hora: string): (r: Result<string>)
    ensures r.Ok? <==> |Split(hora, '-')| >= 2 && ParseInt(Split(hora, '-')[1]).Ok?
    ensures r.Err? ==> (r.error == MissingField <==> |Split(hora, '-')| < 2)
    ensures r.Ok? ==> |Split(hora, '-')| >= 2 && ParseInt(r.value) == ParseInt(Split(hora, '-')[1])
  {
    var hh := Split(hora, '-');
    if |hh| < 2 then Err(MissingField)
    else
      var h :- ParseInt(hh[1]);
      ParseIntToString(h);
      Ok(IntToString(h))
  }

  /** `float(h['PCB'].replace(',', '.')) / 1e3`: the PCB price per MWh, with
      a decimal comma, as a price per kWh. */
  function EntryPrice(pcb: string): (r: Result<real>)
    ensures r.Ok? <==> ParseReal(Replace(pcb, ',', '.')).Ok?
    ensures r.Ok? ==> r.value * 1000.0 == ParseReal(Replace(pcb, ',', '.')).value
    ensures r.Ok? && !Negative(pcb) ==> r.value >= 0.0
  {
    var text := Replace(pcb, ',', '.');
    assert |text| > 0 ==> text[0] == (if pcb[0] == ',' then '.' else pcb[0]);
    var perMwh :- ParseReal(text);
    Ok(perMwh / 1000.0)
  }

  /** The (key, price) pair an entry contributes; the key is computed first,
      so a bad label is reported before a bad price. */
  function EntryPair(e: PvpcEntry): Result<(string, real)> {
    var k :- HourKey(e.hora);
    var p :- EntryPrice(e.pcb);
    Ok((k, p))
  }

  /** The key of a label `H1-H2` whose end hour is written in digits is the
      value of those digits in canonical decimal. */
  lemma HourKeyDigits(start: string, end: string)
    requires '-' !in start
    requires |end| > 0 && AllDigits(end)
    ensures HourKey(start + "-" + end) == Ok(NatToString(DigitsValue(end)))
  {
    DigitsExclude(end, '-');
    assert start + "-" + end == start + ['-'] + end;
    SplitAt(start, end, '-');
    SplitNoSep(end, '-');
    ParseIntDigits(end);
  }

  /** The day's first interval, `"00-01"`, is hour 1. */
  lemma HourKeyFirstHour()
    ensures HourKey("00-01") == Ok("1")
  {
    assert "00-01" == "00" + "-" + "01";
    HourKeyDigits("00", "01");
    assert "01"[..1] == "0";
    assert DigitsValue("01") == 1;
  }

  /** The day's last interval, `"23-24"`, is hour 24. */
  lemma HourKeyLastHour()
    ensures HourKey("23-24") == Ok("24")
  {
    assert "23-24" == "23" + "-" + "24";
    HourKeyDigits("23", "24");
    assert "24"[..1] == "2";
    assert DigitsValue("24") == 24;
    assert NatToString(24) == "24";
  }

  /** A label without `-` raises IndexError. */
  lemma HourKeyNoDash(hora: string)
    requires '-' !in hora
    ensures HourKey(hora) == Err(MissingField)
  {
    SplitNoSep(hora, '-');
  }

  /** A price `W,F` per MWh reads as W + F/10^|F| divided by 1000. */
  lemma EntryPriceDecimalComma(whole: string, frac: string)
    requires |whole| > 0 && AllDigits(whole) && AllDigits(frac)
    ensures EntryPrice(whole + "," + frac) == Ok(DecimalValue(whole, frac) / 1000.0)
  {
    var s := whole + "," + frac;
    DigitsExclude(whole, ',');
    DigitsExclude(frac, ',');
    var t := Replace(s, ',', '.');
    assert t == whole + "." + frac;
    assert IsDigit(t[0]) && Unsigned(t) == t;
    ParseRealPoint(t, whole, frac);
  }

  // ---------------------------------------------------------------------
  // The hour table of one date
  // ---------------------------------------------------------------------

  /** The outcome of every entry, in order. */
  function EntryPairs(entries: seq<PvpcEntry>): (rs: seq<Result<(string, real)>>)
    ensures |rs| == |entries|
    ensures forall i :: 0 <= i < |entries| ==> rs[i] == EntryPair(entries[i])
  {
    seq(|entries|, i requires 0 <= i < |entries| => EntryPair(entries[i]))
  }

  /** Applies the outcomes in order to an empty dictionary, stopping at the
      first error. */
  function Collect(rs: seq<Result<(string, real)>>): Result<HourTable>
    decreases |rs|
  {
    if rs == [] then Ok(map[])
    else
      var table :- Collect(rs[..|rs| - 1]);
      var pair :- rs[|rs| - 1];
      Ok(table[pair.0 := pair.1])
  }

  /** `prices[date] = {}` followed by `prices[date].update({key: price})` for
      every entry in order: the table is built exactly when every entry
      parses, and otherwise the error is that of the first entry that does
      not. */
  function HourTableOf(entries: seq<PvpcEntry>): (r: Result<HourTable>)
    ensures r.Ok? <==> AllEntriesParse(entries)
    ensures r.Err? ==>
      exists i :: 0 <= i < |entries| && EntryPair(entries[i]) == Err(r.error)
                  && forall j :: 0 <= j < i ==> EntryPair(entries[j]).Ok?
  {
    CollectError(EntryPairs(entries));
    Collect(EntryPairs(entries))
  }

  /** Every entry yields a key and a price. */
  predicate AllEntriesParse(entries: seq<PvpcEntry>) {
    forall i :: 0 <= i < |entries| ==> EntryPair(entries[i]).Ok?
  }

  /** The outcomes are collected exactly when none is an error; otherwise the
      error is the first one. */
  lemma {:induction false} CollectError(rs: seq<Result<(string, real)>>)
    ensures Collect(rs).Ok? <==> forall i :: 0 <= i < |rs| ==> rs[i].Ok?
    ensures Collect(rs).Err? ==>
      exists i :: 0 <= i < |rs| && rs[i] == Err(Collect(rs).error)
                  && forall j :: 0 <= j < i ==> rs[j].Ok?
    decreases |rs|
  {
    if rs != [] {
      var n := |rs| - 1;
      var front := rs[..n];
      CollectError(front);
      assert forall i :: 0 <= i < n ==> front[i] == rs[i];
    }
  }

  /** Once a prefix raises, the whole run raises the same error. */
  lemma {:induction false} CollectPrefixError(rs: seq<Result<(string, real)>>, k: nat)
    requires k <= |rs|
    requires Collect(rs[..k]).Err?
    ensures Collect(rs) == Collect(rs[..k])
    decreases |rs| - k
  {
    if k < |rs| {
      assert rs[..k + 1][..k] == rs[..k];
      CollectPrefixError(rs, k + 1);
    } else {
      assert rs[..k] == rs;
    }
  }

  /** One more outcome after a collected prefix: its error, or its pair
      added to the table. */
  lemma CollectStep(rs: seq<Result<(string, real)>>, i: nat, table: HourTable)
    requires i < |rs|
    requires Collect(rs[..i]) == Ok(table)
    ensures rs[i].Err? ==> Collect(rs[..i + 1]) == Err(rs[i].error)
    ensures rs[i].Ok? ==>
      Collect(rs[..i + 1]) == Ok(table[rs[i].value.0 := rs[i].value.1])
  {
    assert rs[..i + 1][..i] == rs[..i];
  }

  /** The values of outcomes that are all numbers. */
  function Values(rs: seq<Result<(string, real)>>): (pairs: seq<(string, real)>)
    requires forall i :: 0 <= i < |rs| ==> rs[i].Ok?
    ensures |pairs| == |rs|
    ensures forall i :: 0 <= i < |rs| ==> rs[i] == Ok(pairs[i])
  {
    seq(|rs|, i requires 0 <= i < |rs| => rs[i].value)
  }

  /** The dictionary left by `update`-ing an empty one with each pair in turn. */
  function Updated(pairs: seq<(string, real)>): HourTable
    decreases |pairs|
  {
    if pairs == [] then map[] else Updated(pairs[..|pairs| - 1])[pairs[|pairs| - 1].0 := pairs[|pairs| - 1].1]
  }

  /** The dictionary holds the key of every pair, and nothing else. */
  lemma {:induction false} UpdatedKeys(pairs: seq<(string, real)>, k: string)
    ensures k in Updated(pairs) <==> exists i :: 0 <= i < |pairs| && pairs[i].0 == k
    decreases |pairs|
  {
    if pairs != [] {
      var n := |pairs| - 1;
      var front := pairs[..n];
      UpdatedKeys(front, k);
      if exists i :: 0 <= i < n && front[i].0 == k {
        var i :| 0 <= i < n && front[i].0 == k;
        assert pairs[i].0 == k;
      }
      if exists i :: 0 <= i < |pairs| && pairs[i].0 == k {
        var i :| 0 <= i < |pairs| && pairs[i].0 == k;
        if i < n {
          assert front[i].0 == k;
        }
      }
    }
  }

  /** A later pair with the same key overwrites an earlier one: a key's value
      is that of the LAST pair with that key. */
  lemma {:induction false} UpdatedLastWins(pairs: seq<(string, real)>, k: string)
    requires k in Updated(pairs)
    ensures exists i :: && 0 <= i < |pairs|
                        && pairs[i] == (k, Updated(pairs)[k])
                        && forall j :: i < j < |pairs| ==> pairs[j].0 != k
    decreases |pairs|
  {
    var n := |pairs| - 1;
    var front := pairs[..n];
    if pairs[n].0 != k {
      UpdatedLastWins(front, k);
      var i :| && 0 <= i < n
               && front[i] == (k, Updated(front)[k])
               && forall j :: i < j < n ==> front[j].0 != k;
      assert pairs[i] == front[i];
      forall j | i < j < |pairs|
        ensures pairs[j].0 != k
      {
        if j < n {
          assert front[j] == pairs[j];
        }
      }
    }
  }

  /** Collected outcomes are the dictionary updated with their pairs in order. */
  lemma {:induction false} CollectUpdated(rs: seq<Result<(string, real)>>)
    requires Collect(rs).Ok?
    ensures forall i :: 0 <= i < |rs| ==> rs[i].Ok?
    ensures Collect(rs).value == Updated(Values(rs))
    decreases |rs|
  {
    CollectError(rs);
    if rs != [] {
      var n := |rs| - 1;
      var front := rs[..n];
      CollectError(front);
      CollectUpdated(front);
      assert Values(rs)[..n] == Values(front);
    }
  }

  /** The pairs of a list of entries that all parse. */
  function PairsOf(entries: seq<PvpcEntry>): (pairs: seq<(string, real)>)
    requires AllEntriesParse(entries)
    ensures |pairs| == |entries|
    ensures forall i :: 0 <= i < |entries| ==> EntryPair(entries[i]) == Ok(pairs[i])
  {
    seq(|entries|, i requires 0 <= i < |entries| => EntryPair(entries[i]).value)
  }

  /** When the hour table is built, it is the dictionary updated with every
      entry's (hour key, price) pair in order. */
  lemma HourTableOfPairs(entries: seq<PvpcEntry>)
    requires HourTableOf(entries).Ok?
    ensures AllEntriesParse(entries)
    ensures HourTableOf(entries).value == Updated(PairsOf(entries))
  {
    var rs := EntryPairs(entries);
    CollectUpdated(rs);
    assert Values(rs) == PairsOf(entries);
  }

  /** The inner loop of `get_price`: builds one date's hour table entry by
      entry, stopping at the first entry that raises. */
  method BuildHourTable(entries: seq<PvpcEntry>) returns (r: Result<HourTable>)
    ensures r == HourTableOf(entries)
  {
    ghost var rs := EntryPairs(entries);
    var table: HourTable := map[];
    var i := 0;
    while i < |entries|
      invariant 0 <= i <= |entries|
      invariant Collect(rs[..i]) == Ok(table)
    {
      var pair := EntryPair(entries[i]);
      CollectStep(rs, i, table);
      if pair.Err? {
        CollectPrefixError(rs, i + 1);
        return Err(pair.error);
      }
      table := table[pair.value.0 := pair.value.1];
      i := i + 1;
    }
    assert rs[..i] == rs;
    return Ok(table);
  }

  // ---------------------------------------------------------------------
  // The table over all dates
  // ---------------------------------------------------------------------

  /** Every date in `dates` that has three parts gets its hour table built. */
  predicate AllTablesParse(dates: set<string>, docs: Archive) {
    forall d :: d in dates && IsDmy(d) ==> HourTableOf(PvpcOf(docs, DateKey(d))).Ok?
  }

  /** The hour table `get_price` stores for a date whose archive document
      parses. */
  function TableIn(docs: Archive): string --> HourTable {
    date requires IsDmy(date) && HourTableOf(PvpcOf(docs, DateKey(date))).Ok? =>
      HourTableOf(PvpcOf(docs, DateKey(date))).value
  }

  /** The entries of `table` for the dates of `dates` that `keep` accepts. */
  function Restrict<V>(dates: set<string>, keep: string -> bool, table: string --> V): (m: map<string, V>)
    requires forall d :: d in dates && keep(d) ==> table.requires(d)
    ensures m.Keys == set d | d in dates && keep(d)
    ensures forall d :: d in m ==> m[d] == table(d)
  {
    map d | d in dates && keep(d) :: table(d)
  }

  /** Restricting to one more date adds that date's entry, or nothing when
      `keep` rejects it. */
  lemma RestrictInsert<V>(seen: set<string>, x: string, keep: string -> bool, table: string --> V)
    requires forall d :: d in seen + {x} && keep(d) ==> table.requires(d)
    ensures Restrict(seen + {x}, keep, table)
         == if keep(x) then Restrict(seen, keep, table)[x := table(x)] else Restrict(seen, keep, table)
  {
  }

  /** `get_price(dates)` when nothing raises: one hour table per three-part
      date, the one its archive document builds. */
  function PriceTableOf(dates: set<string>, docs: Archive): (prices: PriceTable)
    requires AllTablesParse(dates, docs)
    ensures prices.Keys == set d | d in dates && IsDmy(d)
  {
    Restrict(dates, IsDmy, TableIn(docs))
  }

  /** Each date's entry is the hour table its archive document builds. */
  lemma PriceTableOfEntries(dates: set<string>, docs: Archive, date: string)
    requires AllTablesParse(dates, docs)
    requires date in PriceTableOf(dates, docs)
    ensures HourTableOf(PvpcOf(docs, DateKey(date))) == Ok(PriceTableOf(dates, docs)[date])
  {
  }

  /** Adding one date to the visited set adds its hour table, or nothing when
      the date does not have three parts. */
  lemma PriceTableOfInsert(seen: set<string>, date: string, docs: Archive)
    requires AllTablesParse(seen, docs)
    requires IsDmy(date) ==> HourTableOf(PvpcOf(docs, DateKey(date))).Ok?
    ensures AllTablesParse(seen + {date}, docs)
    ensures PriceTableOf(seen + {date}, docs)
         == if IsDmy(date) then PriceTableOf(seen, docs)[date := HourTableOf(PvpcOf(docs, DateKey(date))).value]
            else PriceTableOf(seen, docs)
  {
    forall d | d in seen + {date} && IsDmy(d)
      ensures HourTableOf(PvpcOf(docs, DateKey(d))).Ok?
    {
      if d != date {
        assert d in seen;
      }
    }
    RestrictInsert(seen, date, IsDmy, TableIn(docs));
  }

  /** `get_price(dates)`: visits the dates in any order; a date that does not
      split into three parts is skipped and gets no entry at all. */
  method GetPrice(dates: set<string>, docs: Archive) returns (r: Result<PriceTable>)
    ensures r.Ok? <==> AllTablesParse(dates, docs)
    ensures r.Ok? ==> r.value == PriceTableOf(dates, docs)
    ensures r.Err? ==> exists d :: d in dates && IsDmy(d) && HourTableOf(PvpcOf(docs, DateKey(d))) == Err(r.error)
  {
    var prices: PriceTable := map[];
    var todo := dates;
    while todo != {}
      invariant todo <= dates
      invariant AllTablesParse(dates - todo, docs)
      invariant prices == PriceTableOf(dates - todo, docs)
      decreases |todo|
    {
      var date :| date in todo;
      ghost var seen := dates - todo;
      if IsDmy(date) {
        var table := BuildHourTable(PvpcOf(docs, DateKey(date)));
        if table.Err? {
          return Err(table.error);
        }
        PriceTableOfInsert(seen, date, docs);
        prices := prices[date := table.value];
      } else {
        PriceTableOfInsert(seen, date, docs);
      }
      todo := todo - {date};
      assert dates - todo == seen + {date};
    }
    assert dates - todo == dates;
    return Ok(prices);
  }
}

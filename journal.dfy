/** The trading journal: the trade filter, the per-day and per-month figures shown
    on the calendar tiles, adding a trade from the form, and the CSV export.

    Money and volume are exact reals. Calendar handling (`parseISO`, `format`) is not
    modelled: `dayKey` maps a trade's `dateTime` to its `yyyy-MM-dd` day, and
    `inMonth` says whether a `dateTime` falls in the month of a year-view tile. */
module TradingJournal {
  import opened Types
  import opened Seqs
  import opened Text

  /** A recorded trade. Type, platform and security type are kept as the strings the
      journal compares and exports. */
  datatype Trade = Trade(
    id: string,
    tradeType: string,
    volume: real,
    symbol: string,
    dateTime: string,
    profitLoss: real,
    broker: string,
    platform: string,
    securityType: string,
    comments: string,
    createdAt: string)

  /** The filter panel's criteria; an absent or empty criterion is off. */
  datatype Filters = Filters(
    symbol: Option<string>,
    tradeType: Option<string>,
    securityType: Option<string>,
    broker: Option<string>,
    platform: Option<string>,
    startDate: Option<string>,
    endDate: Option<string>)

  /** The criterion is set to a non-empty string (JavaScript truthiness). */
  predicate On(c: Option<string>)
  {
    c.Some? && c.value != ""
  }

  /** A choice criterion that is on and not `all`. */
  predicate Chosen(c: Option<string>)
  {
    On(c) && c.value != "all"
  }

  /** `getFilteredTrades`' test: every criterion that is on holds. Symbol and broker
      match as case-insensitive substrings, the choices exactly, and the dates as
      inclusive string bounds on the day key. */
  predicate Matches(f: Filters, dayKey: string -> string, t: Trade)
  {
    && (On(f.symbol) ==> ContainsIgnoringCase(t.symbol, f.symbol.value))
    && (Chosen(f.tradeType) ==> t.tradeType == f.tradeType.value)
    && (Chosen(f.securityType) ==> t.securityType == f.securityType.value)
    && (On(f.broker) ==> ContainsIgnoringCase(t.broker, f.broker.value))
    && (Chosen(f.platform) ==> t.platform == f.platform.value)
    && (On(f.startDate) ==> !LexLess(dayKey(t.dateTime), f.startDate.value))
    && (On(f.endDate) ==> !LexLess(f.endDate.value, dayKey(t.dateTime)))
  }

  function FilteredTrades(trades: seq<Trade>, f: Filters, dayKey: string -> string): (r: seq<Trade>)
    ensures forall i :: 0 <= i < |r| ==> r[i] in trades && Matches(f, dayKey, r[i])
    ensures forall i :: 0 <= i < |trades| && Matches(f, dayKey, trades[i]) ==> trades[i] in r
  {
    Filter(trades, (t: Trade) => Matches(f, dayKey, t))
  }

  lemma FilteredTradesKeepOrder(trades: seq<Trade>, f: Filters, dayKey: string -> string)
    ensures IsSubsequence(FilteredTrades(trades, f, dayKey), trades)
  {
    FilterIsSubsequence(trades, (t: Trade) => Matches(f, dayKey, t));
  }

  /** The panel's initial criteria (`type`, `securityType` and `platform` set to `all`)
      keep every trade. */
  lemma InitialFiltersKeepAll(trades: seq<Trade>, dayKey: string -> string)
    ensures FilteredTrades(trades, Filters(None, Some("all"), Some("all"), None, Some("all"), None, None), dayKey) == trades
  {
    FilterAll(trades, (t: Trade) => Matches(Filters(None, Some("all"), Some("all"), None, Some("all"), None, None), dayKey, t));
  }

  /** With the same start and end date, the date criteria keep exactly the trades of
      that day: both bounds are inclusive. */
  lemma SameDayRange(f: Filters, dayKey: string -> string, t: Trade, d: string)
    requires d != "" && f == Filters(None, None, None, None, None, Some(d), Some(d))
    ensures Matches(f, dayKey, t) <==> dayKey(t.dateTime) == d
  {
    LexTrichotomy(dayKey(t.dateTime), d);
  }

  // ------------------------------------------------------------ aggregation

  predicate IsWin(t: Trade) { t.profitLoss > 0.0 }
  predicate IsLoss(t: Trade) { t.profitLoss < 0.0 }
  function Volume(t: Trade): real { t.volume }
  function ProfitLoss(t: Trade): real { t.profitLoss }
  function Comment(t: Trade): string { t.comments }
  predicate HasText(c: string) { c != "" }

  /** `winCount / count * 100`, and 0 for no trades. */
  function WinRate(wins: nat, count: nat): (r: real)
    requires wins <= count
    ensures 0.0 <= r <= 100.0
    ensures count == 0 ==> r == 0.0
    ensures count > 0 ==> r * (count as real) == (wins as real) * 100.0
    ensures wins == count && count > 0 ==> r == 100.0
  {
    if count > 0 then (wins as real) / (count as real) * 100.0 else 0.0
  }

  /** A group of trades can only be up if one of them won, and only down if one lost. */
  lemma DirectionNeedsATrade(xs: seq<Trade>)
    ensures Sum(xs, ProfitLoss) > 0.0 ==> Count(xs, IsWin) > 0
    ensures Sum(xs, ProfitLoss) < 0.0 ==> Count(xs, IsLoss) > 0
  {
    if Count(xs, IsWin) == 0 {
      assert forall i :: 0 <= i < |xs| ==> !IsWin(xs[i]);
      SumNonPositive(xs, ProfitLoss);
    }
    if Count(xs, IsLoss) == 0 {
      assert forall i :: 0 <= i < |xs| ==> !IsLoss(xs[i]);
      SumNonNegative(xs, ProfitLoss);
    }
  }

  datatype DailyStats = DailyStats(
    date: string,
    totalVolume: real,
    tradeCount: nat,
    winCount: nat,
    lossCount: nat,
    winRate: real,
    totalProfitLoss: real,
    comments: string)

  /** The filtered trades of one day, in list order. */
  function DayTrades(trades: seq<Trade>, f: Filters, dayKey: string -> string, date: string): (r: seq<Trade>)
    ensures forall i :: 0 <= i < |r| ==> r[i] in trades && Matches(f, dayKey, r[i]) && dayKey(r[i].dateTime) == date
    ensures forall i :: 0 <= i < |trades| && Matches(f, dayKey, trades[i]) && dayKey(trades[i].dateTime) == date ==>
      trades[i] in r
  {
    var kept := FilteredTrades(trades, f, dayKey);
    var r := Filter(kept, (t: Trade) => dayKey(t.dateTime) == date);
    forall i | 0 <= i < |trades| && Matches(f, dayKey, trades[i]) && dayKey(trades[i].dateTime) == date
      ensures trades[i] in r
    {
      var j :| 0 <= j < |kept| && kept[j] == trades[i];
    }
    r
  }

  /** The non-empty comments of some trades, joined with `; `. */
  function CommentsText(day: seq<Trade>): string
  {
    Join(Filter(Map(day, Comment), HasText), "; ")
  }

  /** The day's comments as shown: the first 50 characters of the joined text. */
  function DayComments(day: seq<Trade>): (r: string)
    ensures |r| == (if |CommentsText(day)| < 50 then |CommentsText(day)| else 50)
    ensures r == CommentsText(day)[..|r|]
  {
    Prefix(CommentsText(day), 50)
  }

  /** A trade without a comment adds nothing to the day's comments. */
  lemma BlankCommentAddsNothing(day: seq<Trade>, t: Trade)
    requires t.comments == ""
    ensures DayComments(day + [t]) == DayComments(day)
  {
    var cs := Map(day, Comment);
    assert Map(day + [t], Comment) == cs + [""];
    FilterAppend(cs, [""], HasText);
    assert Filter([""], HasText) == [];
    assert Filter(cs, HasText) + [] == Filter(cs, HasText);
  }

  /** `calculateDailyStats(date)`: the counts, totals and win rate of the day's filtered
      trades, and their comments. */
  function CalculateDailyStats(trades: seq<Trade>, f: Filters, dayKey: string -> string, date: string): (s: DailyStats)
    ensures s.date == date
    ensures s.tradeCount == |DayTrades(trades, f, dayKey, date)|
    ensures s.winCount == Count(DayTrades(trades, f, dayKey, date), IsWin)
    ensures s.lossCount == Count(DayTrades(trades, f, dayKey, date), IsLoss)
    ensures s.winCount + s.lossCount <= s.tradeCount
    ensures s.winRate == WinRate(s.winCount, s.tradeCount)
    ensures s.totalVolume == Sum(DayTrades(trades, f, dayKey, date), Volume)
    ensures s.totalProfitLoss == Sum(DayTrades(trades, f, dayKey, date), ProfitLoss)
    ensures s.comments == DayComments(DayTrades(trades, f, dayKey, date))
    ensures s.tradeCount == 0 ==> s.winRate == 0.0 && s.totalVolume == 0.0 && s.totalProfitLoss == 0.0 && s.comments == ""
  {
    var day := DayTrades(trades, f, dayKey, date);
    var wins := Count(day, IsWin);
    var losses := Count(day, IsLoss);
    CountDisjoint(day, IsWin, IsLoss);
    DailyStats(date, Sum(day, Volume), |day|, wins, losses, WinRate(wins, |day|),
               Sum(day, ProfitLoss), DayComments(day))
  }

  /** A day can only be up if one of its trades won, and only down if one lost. */
  lemma DayDirectionNeedsATrade(trades: seq<Trade>, f: Filters, dayKey: string -> string, date: string)
    ensures var s := CalculateDailyStats(trades, f, dayKey, date);
      && (s.totalProfitLoss > 0.0 ==> s.winCount > 0)
      && (s.totalProfitLoss < 0.0 ==> s.lossCount > 0)
  {
    DirectionNeedsATrade(DayTrades(trades, f, dayKey, date));
  }

  /** Recording a trade that the filters keep on that day adds one trade to the day's
      figures; any other trade leaves them as they were. */
  lemma AddTradeUpdatesDay(trades: seq<Trade>, form: TradeForm, now: string, stamp: string,
                           f: Filters, dayKey: string -> string, date: string)
    requires FormComplete(form)
    ensures var nt := NewTrade(form, now, stamp);
      var before := CalculateDailyStats(trades, f, dayKey, date);
      var after := CalculateDailyStats(AddTrade(trades, form, now, stamp), f, dayKey, date);
      if Matches(f, dayKey, nt) && dayKey(nt.dateTime) == date then
        && after.tradeCount == before.tradeCount + 1
        && after.winCount == before.winCount + (if IsWin(nt) then 1 else 0)
        && after.lossCount == before.lossCount + (if IsLoss(nt) then 1 else 0)
        && after.totalVolume == before.totalVolume + nt.volume
        && after.totalProfitLoss == before.totalProfitLoss + nt.profitLoss
      else after == before
  {
    var nt := NewTrade(form, now, stamp);
    var kept := FilteredTrades(trades, f, dayKey);
    var day := DayTrades(trades, f, dayKey, date);
    FilterAppend(trades, [nt], (t: Trade) => Matches(f, dayKey, t));
    var extra := Filter([nt], (t: Trade) => Matches(f, dayKey, t));
    assert FilteredTrades(trades + [nt], f, dayKey) == kept + extra;
    FilterAppend(kept, extra, (t: Trade) => dayKey(t.dateTime) == date);
    if Matches(f, dayKey, nt) && dayKey(nt.dateTime) == date {
      assert DayTrades(trades + [nt], f, dayKey, date) == day + [nt];
      FilterAppend(day, [nt], IsWin);
      FilterAppend(day, [nt], IsLoss);
      SumSnoc(day, nt, Volume);
      SumSnoc(day, nt, ProfitLoss);
    } else {
      assert Filter(extra, (t: Trade) => dayKey(t.dateTime) == date) == [];
      assert DayTrades(trades + [nt], f, dayKey, date) == day;
    }
  }

  /** A year-view month tile's figures. */
  datatype MonthStats = MonthStats(tradeCount: nat, totalProfitLoss: real, winCount: nat, winRate: real)

  /** The filtered trades that fall in a month, in list order. */
  function MonthTrades(trades: seq<Trade>, f: Filters, dayKey: string -> string, inMonth: string -> bool): (r: seq<Trade>)
    ensures forall i :: 0 <= i < |r| ==> r[i] in trades && Matches(f, dayKey, r[i]) && inMonth(r[i].dateTime)
    ensures forall i :: 0 <= i < |trades| && Matches(f, dayKey, trades[i]) && inMonth(trades[i].dateTime) ==>
      trades[i] in r
  {
    var kept := FilteredTrades(trades, f, dayKey);
    var r := Filter(kept, (t: Trade) => inMonth(t.dateTime));
    forall i | 0 <= i < |trades| && Matches(f, dayKey, trades[i]) && inMonth(trades[i].dateTime)
      ensures trades[i] in r
    {
      var j :| 0 <= j < |kept| && kept[j] == trades[i];
    }
    r
  }

  /** The year view's figures for a month: the count, total and win rate of its
      filtered trades. */
  function CalculateMonthStats(trades: seq<Trade>, f: Filters, dayKey: string -> string,
                               inMonth: string -> bool): (m: MonthStats)
    ensures m.tradeCount == |MonthTrades(trades, f, dayKey, inMonth)|
    ensures m.totalProfitLoss == Sum(MonthTrades(trades, f, dayKey, inMonth), ProfitLoss)
    ensures m.winCount == Count(MonthTrades(trades, f, dayKey, inMonth), IsWin)
    ensures m.winCount <= m.tradeCount
    ensures m.winRate == WinRate(m.winCount, m.tradeCount)
    ensures m.tradeCount == 0 ==> m.winRate == 0.0 && m.totalProfitLoss == 0.0
  {
    var month := MonthTrades(trades, f, dayKey, inMonth);
    var wins := Count(month, IsWin);
    MonthStats(|month|, Sum(month, ProfitLoss), wins, WinRate(wins, |month|))
  }

  /** When the month test picks exactly the trades of one day, the month's figures are
      that day's. */
  lemma MonthOfOneDay(trades: seq<Trade>, f: Filters, dayKey: string -> string,
                      inMonth: string -> bool, date: string)
    requires forall dt :: inMonth(dt) == (dayKey(dt) == date)
    ensures var m := CalculateMonthStats(trades, f, dayKey, inMonth);
      var s := CalculateDailyStats(trades, f, dayKey, date);
      m.tradeCount == s.tradeCount && m.totalProfitLoss == s.totalProfitLoss
      && m.winCount == s.winCount && m.winRate == s.winRate
  {
    FilterCongruent(FilteredTrades(trades, f, dayKey), (t: Trade) => inMonth(t.dateTime),
                    (t: Trade) => dayKey(t.dateTime) == date);
    assert MonthTrades(trades, f, dayKey, inMonth) == DayTrades(trades, f, dayKey, date);
  }

  /** A tile's colouring. */
  datatype Tile = NeutralTile | PositiveTile | NegativeTile

  /** `getTileColor`, and the same rule for the month tiles: no trades or a flat result
      is neutral, otherwise the sign of the profit decides. */
  function TileClass(tradeCount: nat, profitLoss: real): (c: Tile)
    ensures c == PositiveTile <==> tradeCount > 0 && profitLoss > 0.0
    ensures c == NegativeTile <==> tradeCount > 0 && profitLoss < 0.0
    ensures c == NeutralTile <==> tradeCount == 0 || profitLoss == 0.0
  {
    if tradeCount == 0 then NeutralTile
    else if profitLoss > 0.0 then PositiveTile
    else if profitLoss < 0.0 then NegativeTile
    else NeutralTile
  }

  function DayTile(s: DailyStats): Tile
  {
    TileClass(s.tradeCount, s.totalProfitLoss)
  }

  function MonthTile(m: MonthStats): Tile
  {
    TileClass(m.tradeCount, m.totalProfitLoss)
  }

  /** A green day tile has a winning trade and a red one a losing trade. */
  lemma DayTileHasWitness(trades: seq<Trade>, f: Filters, dayKey: string -> string, date: string)
    ensures var s := CalculateDailyStats(trades, f, dayKey, date);
      && (DayTile(s) == PositiveTile ==> s.winCount > 0)
      && (DayTile(s) == NegativeTile ==> s.lossCount > 0)
  {
    DayDirectionNeedsATrade(trades, f, dayKey, date);
  }

  /** A green month tile has a winning trade. */
  lemma MonthTileHasWitness(trades: seq<Trade>, f: Filters, dayKey: string -> string, inMonth: string -> bool)
    ensures var m := CalculateMonthStats(trades, f, dayKey, inMonth);
      MonthTile(m) == PositiveTile ==> m.winCount > 0 && m.winRate > 0.0
  {
    DirectionNeedsATrade(MonthTrades(trades, f, dayKey, inMonth));
  }

  // --------------------------------------------------------------- add trade

  /** The add-trade form. The number inputs are read with `parseFloat`, so a cleared
      input holds NaN, written `None`. */
  datatype TradeForm = TradeForm(
    tradeType: string,
    volume: Option<real>,
    symbol: string,
    dateTime: string,
    profitLoss: Option<real>,
    broker: string,
    platform: string,
    securityType: string,
    comments: string)

  /** The form as it opens and as it is reset after a trade is added. */
  function InitialForm(now: string): (f: TradeForm)
    ensures f.symbol == "" && f.broker == "" && f.volume == Some(0.0) && f.profitLoss == Some(0.0)
  {
    TradeForm("BUY", Some(0.0), "", now, Some(0.0), "", "MT5", "Forex", "")
  }

  /** The form is complete when symbol, volume and broker are all truthy: a volume of
      0 or NaN is refused. */
  predicate FormComplete(form: TradeForm)
  {
    form.symbol != "" && form.volume.Some? && form.volume.value != 0.0 && form.broker != ""
  }

  /** The trade `handleAddTrade` records from a complete form; a NaN P/L is stored as
      0 (`profitLoss || 0`). */
  function NewTrade(form: TradeForm, now: string, stamp: string): (t: Trade)
    requires FormComplete(form)
    ensures t.id == "trade-" + stamp && t.symbol == Upper(form.symbol)
    ensures t.dateTime == (if form.dateTime != "" then form.dateTime else now)
    ensures Some(t.volume) == form.volume && t.volume != 0.0
    ensures form.profitLoss.Some? ==> t.profitLoss == form.profitLoss.value
    ensures form.profitLoss.None? ==> t.profitLoss == 0.0
    ensures t.comments == form.comments && t.broker == form.broker && t.tradeType == form.tradeType
    ensures t.platform == form.platform && t.securityType == form.securityType && t.createdAt == now
  {
    Trade("trade-" + stamp, form.tradeType, form.volume.value, Upper(form.symbol),
          if form.dateTime != "" then form.dateTime else now,
          form.profitLoss.GetOr(0.0), form.broker, form.platform, form.securityType, form.comments, now)
  }

  /** An incomplete form is refused with the list unchanged; a complete one appends
      exactly one trade at the end. A cleared volume is refused, and a cleared P/L is
      recorded as 0, so no NaN reaches the list. */
  function AddTrade(trades: seq<Trade>, form: TradeForm, now: string, stamp: string): (r: seq<Trade>)
    ensures !FormComplete(form) ==> r == trades
    ensures FormComplete(form) ==> |r| == |trades| + 1 && r[..|trades|] == trades && r[|trades|] == NewTrade(form, now, stamp)
    ensures form.volume.None? || form.volume == Some(0.0) ==> r == trades
    ensures FormComplete(form) && form.profitLoss.None? ==> r[|trades|].profitLoss == 0.0
  {
    if FormComplete(form) then
      assert (trades + [NewTrade(form, now, stamp)])[..|trades|] == trades;
      trades + [NewTrade(form, now, stamp)]
    else trades
  }

  /** The freshly opened form is always refused. */
  lemma InitialFormRefused(trades: seq<Trade>, now: string, stamp: string)
    ensures AddTrade(trades, InitialForm(now), now, stamp) == trades
  {
  }

  // --------------------------------------------------------------------- CSV

  /** The export's column names, in field order. */
  function CsvColumns(): (r: seq<string>)
    ensures |r| == 9
  {
    ["Type", "Volume", "Symbol", "DateTime", "P/L", "Broker", "Platform", "SecurityType", "Comments"]
  }

  /** `Type,Volume,Symbol,DateTime,P/L,Broker,Platform,SecurityType,Comments`. */
  function CsvHeader(): string
  {
    Join(CsvColumns(), ",")
  }

  /** The header is one line that splits back into the nine column names. */
  lemma HeaderPlain()
    ensures '\n' !in CsvHeader()
    ensures Split(CsvHeader(), ',') == CsvColumns()
  {
    var names := CsvColumns();
    forall k | 0 <= k < 9 ensures '\n' !in names[k] && ',' !in names[k] {
    }
    JoinFreeOf(names, ",", '\n');
    assert "," == [','];
    SplitJoinPlain(names, ',');
  }

  /** A trade's fields in export order; `show` is `String(number)`. */
  function CsvFields(t: Trade, show: real -> string): (r: seq<string>)
    ensures |r| == 9
  {
    [t.tradeType, show(t.volume), t.symbol, t.dateTime, show(t.profitLoss), t.broker, t.platform, t.securityType, t.comments]
  }

  function CsvRow(t: Trade, show: real -> string): string
  {
    Join(CsvFields(t, show), ",")
  }

  /** The exported text: the header line, then one line per filtered trade, with no
      quoting. */
  function Csv(trades: seq<Trade>, f: Filters, dayKey: string -> string, show: real -> string): string
  {
    Join([CsvHeader()] + Map(FilteredTrades(trades, f, dayKey), (t: Trade) => CsvRow(t, show)), "\n")
  }

  predicate FreeOf(t: Trade, show: real -> string, c: char)
  {
    forall k :: 0 <= k < 9 ==> c !in CsvFields(t, show)[k]
  }

  /** When no field holds a line break, the export splits into the header and one row
      per filtered trade, in filter order. */
  lemma CsvLines(trades: seq<Trade>, f: Filters, dayKey: string -> string, show: real -> string)
    requires forall i :: 0 <= i < |trades| ==> FreeOf(trades[i], show, '\n')
    ensures Split(Csv(trades, f, dayKey, show), '\n') ==
      [CsvHeader()] + Map(FilteredTrades(trades, f, dayKey), (t: Trade) => CsvRow(t, show))
  {
    var kept := FilteredTrades(trades, f, dayKey);
    var rows := Map(kept, (t: Trade) => CsvRow(t, show));
    var lines := [CsvHeader()] + rows;
    forall i | 0 <= i < |lines| ensures '\n' !in lines[i] {
      if i == 0 {
        assert lines[0] == CsvHeader();
        HeaderPlain();
      } else {
        var t := kept[i - 1];
        assert lines[i] == CsvRow(t, show);
        assert t in trades;
        var j :| 0 <= j < |trades| && trades[j] == t;
        RowFreeOf(t, show, '\n');
      }
    }
    assert "\n" == ['\n'];
    SplitJoinPlain(lines, '\n');
  }

  /** A row holds a character only if one of its fields does (the separator aside). */
  lemma RowFreeOf(t: Trade, show: real -> string, c: char)
    requires FreeOf(t, show, c) && c != ','
    ensures c !in CsvRow(t, show)
  {
    JoinFreeOf(CsvFields(t, show), ",", c);
  }

  lemma {:induction false} JoinFreeOf(parts: seq<string>, sep: string, c: char)
    requires c !in sep
    requires forall k :: 0 <= k < |parts| ==> c !in parts[k]
    ensures c !in Join(parts, sep)
  {
    if |parts| > 1 {
      JoinFreeOf(parts[1..], sep, c);
    }
  }

  /** When no field holds a comma, a row splits back into its nine fields. */
  lemma CsvRowFields(t: Trade, show: real -> string)
    requires FreeOf(t, show, ',')
    ensures Split(CsvRow(t, show), ',') == CsvFields(t, show)
  {
    assert "," == [','];
    SplitJoinPlain(CsvFields(t, show), ',');
  }

  /** Fields are not quoted: a comment with a comma in it gives the row a tenth field. */
  lemma CommaInCommentAddsField(t: Trade, show: real -> string, a: string, b: string)
    requires ',' !in a && ',' !in b
    requires forall k :: 0 <= k < 8 ==> ',' !in CsvFields(t, show)[k]
    requires t.comments == a + "," + b
    ensures |Split(CsvRow(t, show), ',')| == 10
  {
    var fs := CsvFields(t, show);
    var front := fs[..8];
    var split := fs[..8] + [a, b];
    assert "," == [','];
    assert CsvRow(t, show) == Join(split, ",") by {
      JoinLast(front, a + "," + b, ",");
      JoinLast(front + [a], b, ",");
      JoinLast(front, a, ",");
      assert fs == front + [a + "," + b];
      assert split == (front + [a]) + [b];
      assert Join(front + [a], ",") == Join(front, ",") + "," + a;
    }
    forall k | 0 <= k < |split| ensures ',' !in split[k] {
      if k < 8 {
        assert split[k] == fs[k];
      }
    }
    SplitJoinPlain(split, ',');
  }

  /** Joining one more part puts the separator before it. */
  lemma {:induction false} JoinLast(parts: seq<string>, x: string, sep: string)
    requires parts != []
    ensures Join(parts + [x], sep) == Join(parts, sep) + sep + x
  {
    if |parts| == 1 {
      assert (parts + [x])[1..] == [x];
    } else {
      assert (parts + [x])[1..] == parts[1..] + [x];
      JoinLast(parts[1..], x, sep);
    }
  }

  // ------------------------------------------------------------------ page

  /** The journal page's trade list and add-trade form. */
  class JournalPage {
    var trades: seq<Trade>
    var form: TradeForm
    var showAddTrade: bool
    var filters: Filters

    constructor(now: string)
      ensures trades == [] && form == InitialForm(now) && !showAddTrade
      ensures filters == Filters(None, Some("all"), Some("all"), None, Some("all"), None, None)
    {
      trades := [];
      form := InitialForm(now);
      showAddTrade := false;
      filters := Filters(None, Some("all"), Some("all"), None, Some("all"), None, None);
    }

    /** `handleAddTrade`: an incomplete form raises the alert (`alerted`) and changes
        nothing; a complete one appends the trade, closes the dialog and resets the form. */
    method SubmitTrade(now: string, stamp: string) returns (alerted: bool)
      modifies this`trades, this`form, this`showAddTrade
      ensures alerted <==> !FormComplete(old(form))
      ensures trades == AddTrade(old(trades), old(form), now, stamp)
      ensures alerted ==> form == old(form) && showAddTrade == old(showAddTrade)
      ensures !alerted ==> form == InitialForm(now) && !showAddTrade
    {
      if !FormComplete(form) {
        alerted := true;
        return;
      }
      alerted := false;
      trades := AddTrade(trades, form, now, stamp);
      showAddTrade := false;
      form := InitialForm(now);
    }

    function Shown(dayKey: string -> string): (r: seq<Trade>)
      reads this
      ensures r == FilteredTrades(trades, filters, dayKey)
      ensures forall i :: 0 <= i < |r| ==> r[i] in trades
    {
      FilteredTrades(trades, filters, dayKey)
    }
  }
}

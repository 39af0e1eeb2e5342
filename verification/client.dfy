/** The web client's own rules: the displayed quote, the Reserve button, image-URL parsing, the route guard and filter updates. */
module Client {
  import opened Wrappers
  import opened Schemas
  import opened Money
  import opened Text
  import opened Seqs
  import Reservations

  const MsPerDay: int := 1000 * 60 * 60 * 24

  /** `Math.ceil(a / b)` for a positive divisor. */
  function CeilDiv(a: int, b: int): (q: int)
    requires b > 0
    ensures (q - 1) * b < a <= q * b
  {
    -((-a) / b)
  }

  /** A monthly price spread over a number of days, thirty days to the month. */
  function ProRata(pricePerMonth: real, days: int): real {
    pricePerMonth * days as real / 30.0
  }

  datatype ClientQuote = ClientQuote(days: int, base: real, serviceFee: real, deposit: real, total: real)

  /** The booking summary's day count: whole days rounded up, at least one. */
  function QuoteDays(startMs: int, endMs: int): (days: int)
    ensures days >= 1
    ensures endMs - startMs <= 0 ==> days == 1
    ensures endMs - startMs > 0 ==> (days - 1) * MsPerDay < endMs - startMs <= days * MsPerDay
  {
    var d := CeilDiv(endMs - startMs, MsPerDay);
    if d >= 1 then d else 1
  }

  /**
   * The booking summary of the listing modal. No quote while either date is empty;
   * otherwise base and fee are each shown rounded, and the total is the unrounded sum
   * plus the $50 deposit, rounded once. `toMs` stands for `new Date(s).getTime()`.
   */
  function QuoteCosts(pricePerMonth: real, startDate: string, endDate: string, toMs: string -> int): (q: Option<ClientQuote>)
    ensures q.None? <==> startDate == "" || endDate == ""
    ensures q.Some? ==> q.value.days == QuoteDays(toMs(startDate), toMs(endDate)) && q.value.deposit == 50.0
    ensures q.Some? ==>
              var base := ProRata(pricePerMonth, q.value.days);
              && q.value.base == Round2(base)
              && q.value.serviceFee == Round2(base * 0.1)
              && q.value.total == Round2(base + base * 0.1 + 50.0)
  {
    if startDate == "" || endDate == "" then None
    else
      var days := QuoteDays(toMs(startDate), toMs(endDate));
      var base := ProRata(pricePerMonth, days);
      var serviceFee := base * 0.1;
      var deposit := 50.0;
      var total := base + serviceFee + deposit;
      Some(ClientQuote(days, Round2(base), Round2(serviceFee), deposit, Round2(total)))
  }

  /** The Reserve button is disabled while either date is empty or a request is pending. */
  function ReserveDisabled(startDate: string, endDate: string, isPending: bool): bool {
    startDate == "" || endDate == "" || isPending
  }

  /** The button is enabled exactly when a quote is on screen and no request is pending. */
  lemma ReserveEnabledIffQuoted(price: real, startDate: string, endDate: string, toMs: string -> int, isPending: bool)
    ensures !ReserveDisabled(startDate, endDate, isPending) <==> QuoteCosts(price, startDate, endDate, toMs).Some? && !isPending
  {
  }

  /** An inverted or empty range is not blocked in the browser: it is quoted as one day. */
  lemma InvertedRangeQuotedAsOneDay(price: real, startDate: string, endDate: string, toMs: string -> int)
    requires startDate != "" && endDate != ""
    requires toMs(endDate) <= toMs(startDate)
    ensures !ReserveDisabled(startDate, endDate, false)
    ensures QuoteCosts(price, startDate, endDate, toMs).value.days == 1
  {
  }

  /** For dates at midnight with the end after the start, the browser counts the same days as the server. */
  lemma QuoteAgreesWithServerOnDays(price: real, startDate: string, endDate: string, toMs: string -> int, startDay: int, endDay: int)
    requires startDate != "" && endDate != ""
    requires toMs(startDate) == startDay * MsPerDay && toMs(endDate) == endDay * MsPerDay
    requires startDay < endDay
    ensures QuoteCosts(price, startDate, endDate, toMs).value.days == Reservations.CostDays(startDay, endDay)
  {
    WholeDaysQuote(startDay, endDay);
  }

  /** When both sides count the same days, the browser shows the server's base price rounded to cents. */
  lemma QuoteBaseIsRoundedServerBase(price: real, startDate: string, endDate: string, toMs: string -> int, startDay: int, endDay: int)
    requires startDate != "" && endDate != "" && startDay < endDay
    requires QuoteDays(toMs(startDate), toMs(endDate)) == endDay - startDay
    ensures QuoteCosts(price, startDate, endDate, toMs).value.base
            == Round2(Reservations.CalculateCosts(Reservations.DefaultSettings, price, startDay, endDay).base)
  {
    var q := QuoteCosts(price, startDate, endDate, toMs).value;
    assert q.days == endDay - startDay;
    ServerBase(price, startDay, endDay);
  }

  lemma ServerBase(price: real, startDay: int, endDay: int)
    requires startDay < endDay
    ensures Reservations.CalculateCosts(Reservations.DefaultSettings, price, startDay, endDay).base
            == ProRata(price, endDay - startDay)
  {
    var c := Reservations.CalculateCosts(Reservations.DefaultSettings, price, startDay, endDay);
    assert c.base * 30.0 == price * (endDay - startDay) as real;
  }

  /** Midnight-to-midnight ranges are counted as their exact number of days. */
  lemma WholeDaysQuote(startDay: int, endDay: int)
    requires startDay < endDay
    ensures QuoteDays(startDay * MsPerDay, endDay * MsPerDay) == endDay - startDay
  {
    var n := endDay - startDay;
    assert endDay * MsPerDay - startDay * MsPerDay == n * MsPerDay;
    DaysOfWholeDays(n, QuoteDays(startDay * MsPerDay, endDay * MsPerDay));
  }

  /** Rounding a whole number of days up gives that number back. */
  lemma DaysOfWholeDays(n: int, days: int)
    requires n >= 1
    requires (days - 1) * MsPerDay < n * MsPerDay <= days * MsPerDay
    ensures days == n
  {
    MulCancel(days - 1, n, MsPerDay);
    if n > days { MulMonotone(days + 1, n, MsPerDay); }
  }

  lemma MulCancel(a: int, b: int, m: int)
    requires m > 0 && a * m < b * m
    ensures a < b
  {
    if a >= b { MulMonotone(b, a, m); }
  }

  lemma MulMonotone(a: int, b: int, m: int)
    requires m > 0 && a <= b
    ensures a * m <= b * m
  {
    assert b * m - a * m == (b - a) * m;
  }

  /**
   * A concrete quote where the displayed total is not the sum of the displayed parts
   * and differs from the server's total by one cent: $31.335 a month for one day.
   */
  lemma DisplayedTotalCanDiffer()
    ensures var toMs := (s: string) => if s == "2024-01-02" then MsPerDay else 0;
            var q := QuoteCosts(31.335, "2024-01-01", "2024-01-02", toMs).value;
            var c := Reservations.CalculateCosts(Reservations.DefaultSettings, 31.335, 0, 1);
            && q.total == 51.15
            && q.base + q.serviceFee + q.deposit == 51.14
            && c.total == 51.14
  {
    var toMs := (s: string) => if s == "2024-01-02" then MsPerDay else 0;
    assert QuoteDays(toMs("2024-01-01"), toMs("2024-01-02")) == 1;
    var base := 31.335 * 1.0 / 30.0;
    assert base == 1.0445;
    assert Round2(base) == 1.04 by { assert (base * 100.0 + 0.5).Floor == 104; }
    assert Round2(base * 0.1) == 0.10 by { assert (base * 0.1 * 100.0 + 0.5).Floor == 10; }
    assert Round2(base + base * 0.1 + 50.0) == 51.15 by {
      assert (base + base * 0.1 + 50.0) * 100.0 + 0.5 == 5115.395;
      assert (5115.395).Floor == 5115;
    }
    assert Round2(base + 0.10 + 50.0) == 51.14 by {
      assert (base + 0.10 + 50.0) * 100.0 + 0.5 == 5114.95;
      assert (5114.95).Floor == 5114;
    }
  }

  /** No comma in the text. */
  predicate CommaFree(s: string) {
    forall j :: 0 <= j < |s| ==> s[j] != ','
  }

  /** No whitespace at either end. */
  predicate Trimmed(s: string) {
    |s| > 0 ==> !IsJsSpace(s[0]) && !IsJsSpace(s[|s| - 1])
  }

  /** What the form keeps as an image URL: non-empty, trimmed, comma-free. */
  predicate IsUrl(s: string) {
    s != "" && Trimmed(s) && CommaFree(s)
  }

  /** Image URLs typed as one comma-separated string: pieces trimmed, empty pieces dropped. */
  function ParseImages(text: string): (urls: seq<string>)
    ensures |urls| <= CountChar(text, ',') + 1
    ensures forall k :: 0 <= k < |urls| ==> IsUrl(urls[k])
  {
    var pieces := Split(text, ',');
    assert forall k :: 0 <= k < |pieces| ==> CommaFree(pieces[k]);
    DropEmpty(TrimAll(pieces))
  }

  /** Each URL is a trimmed piece of the text, and each piece that is not blank after trimming is kept. */
  lemma ParseImagesFromPieces(text: string)
    ensures var urls := ParseImages(text);
            && (forall k :: 0 <= k < |urls| ==> exists p :: p in Split(text, ',') && urls[k] == Trim(p))
            && (forall p :: p in Split(text, ',') && Trim(p) != "" ==> Trim(p) in urls)
  {
    var pieces := Split(text, ',');
    assert forall k :: 0 <= k < |pieces| ==> CommaFree(pieces[k]);
    ParseImagesOfPieces(text, pieces);
    UrlsComeFromPieces(pieces);
  }

  lemma UrlsComeFromPieces(pieces: seq<string>)
    requires forall k :: 0 <= k < |pieces| ==> CommaFree(pieces[k])
    ensures var urls := DropEmpty(TrimAll(pieces));
            && (forall k :: 0 <= k < |urls| ==> exists p :: p in pieces && urls[k] == Trim(p))
            && (forall p :: p in pieces && Trim(p) != "" ==> Trim(p) in urls)
  {
    var trimmed := TrimAll(pieces);
    var urls := DropEmpty(trimmed);
    forall k | 0 <= k < |urls| ensures exists p :: p in pieces && urls[k] == Trim(p) {
      var m :| 0 <= m < |trimmed| && trimmed[m] == urls[k];
      assert pieces[m] in pieces;
    }
    forall p | p in pieces && Trim(p) != "" ensures Trim(p) in urls {
      var m :| 0 <= m < |pieces| && pieces[m] == p;
      assert trimmed[m] == Trim(p);
    }
  }

  /** Trims every piece; trimming adds no comma. */
  function TrimAll(pieces: seq<string>): (t: seq<string>)
    requires forall k :: 0 <= k < |pieces| ==> CommaFree(pieces[k])
    ensures |t| == |pieces|
    ensures forall k :: 0 <= k < |t| ==> t[k] == Trim(pieces[k])
    ensures forall k :: 0 <= k < |t| ==> Trimmed(t[k]) && CommaFree(t[k])
  {
    var t := Map(pieces, Trim);
    forall k | 0 <= k < |t| ensures Trimmed(t[k]) && CommaFree(t[k]) {
      assert CommaFree(pieces[k]);
      TrimAddsNothing(pieces[k], ',');
    }
    t
  }

  /** JavaScript's truthiness of a string. */
  function NonEmpty(x: string): bool { x != "" }

  /** Drops the empty strings (JavaScript's `filter(Boolean)` on strings). */
  function DropEmpty(t: seq<string>): (u: seq<string>)
    requires forall k :: 0 <= k < |t| ==> Trimmed(t[k]) && CommaFree(t[k])
    ensures |u| <= |t|
    ensures forall k :: 0 <= k < |u| ==> IsUrl(u[k])
    ensures forall k :: 0 <= k < |u| ==> u[k] in t
    ensures forall k :: 0 <= k < |t| && t[k] != "" ==> t[k] in u
  {
    var u := Filter(t, NonEmpty);
    forall k | 0 <= k < |u| ensures IsUrl(u[k]) {
      var m :| 0 <= m < |t| && t[m] == u[k];
    }
    u
  }

  /** Splitting a text that starts with a comma-free piece and a comma peels that piece off. */
  lemma {:induction false} SplitAfterPiece(p: string, rest: string)
    requires CommaFree(p)
    ensures Split(p + [','] + rest, ',') == [p] + Split(rest, ',')
  {
    if |p| > 0 {
      var s := p + [','] + rest;
      assert s[1..] == p[1..] + [','] + rest;
      SplitAfterPiece(p[1..], rest);
      assert [p[0]] + p[1..] == p;
    } else {
      assert p + [','] + rest == [','] + rest;
    }
  }

  /** A comma-free text splits into itself. */
  lemma {:induction false} SplitSingle(p: string)
    requires CommaFree(p)
    ensures Split(p, ',') == [p]
  {
    if |p| > 0 {
      SplitSingle(p[1..]);
      assert [p[0]] + p[1..] == p;
    }
  }

  /** Splitting a join of comma-free pieces gives the pieces back. */
  lemma {:induction false} SplitJoin(parts: seq<string>)
    requires |parts| > 0
    requires forall k :: 0 <= k < |parts| ==> CommaFree(parts[k])
    ensures Split(Join(parts, ','), ',') == parts
  {
    if |parts| == 1 {
      SplitSingle(parts[0]);
    } else {
      SplitJoin(parts[1..]);
      SplitAfterPiece(parts[0], Join(parts[1..], ','));
      assert parts == [parts[0]] + parts[1..];
    }
  }

  /** URLs that are non-empty, comma-free and trimmed survive being joined with commas and parsed again. */
  lemma ParseImagesOfJoin(urls: seq<string>)
    requires |urls| > 0
    requires forall k :: 0 <= k < |urls| ==> IsUrl(urls[k])
    ensures ParseImages(Join(urls, ',')) == urls
  {
    var text := Join(urls, ',');
    UrlsKeptWhole(urls);
    SplitJoin(urls);
    ParseImagesOfPieces(text, urls);
  }

  /** Parsing only looks at the pieces the text splits into. */
  lemma ParseImagesOfPieces(text: string, pieces: seq<string>)
    requires forall k :: 0 <= k < |pieces| ==> CommaFree(pieces[k])
    requires Split(text, ',') == pieces
    ensures ParseImages(text) == DropEmpty(TrimAll(pieces))
  {
  }

  /** URLs come through trimming and dropping of blanks unchanged. */
  lemma UrlsKeptWhole(urls: seq<string>)
    requires forall k :: 0 <= k < |urls| ==> IsUrl(urls[k])
    ensures forall k :: 0 <= k < |urls| ==> CommaFree(urls[k])
    ensures DropEmpty(TrimAll(urls)) == urls
  {
    forall k | 0 <= k < |urls| ensures CommaFree(urls[k]) && Trimmed(urls[k]) && NonEmpty(urls[k]) {
      assert IsUrl(urls[k]);
    }
    var trimmed := TrimAll(urls);
    forall k | 0 <= k < |urls| ensures trimmed[k] == urls[k] {
      assert Trim(urls[k]) == urls[k];
    }
    assert trimmed == urls;
    FilterAll(urls, NonEmpty);
  }

  /** A text without commas parses to its trimmed self, or to nothing when that is blank. */
  lemma ParseImagesSingle(a: string)
    requires CommaFree(a)
    ensures ParseImages(a) == if Trim(a) == "" then [] else [Trim(a)]
  {
    SplitSingle(a);
    ParseImagesOfPieces(a, [a]);
    var t := TrimAll([a]);
    assert t == [Trim(a)];
    assert Filter(t, NonEmpty) == if NonEmpty(t[0]) then [t[0]] + Filter(t[1..], NonEmpty) else Filter(t[1..], NonEmpty);
  }

  /**
   * Parsing keeps order and repeats: the URLs of a text whose first piece is `a`
   * are the URLs of `a` followed by the URLs of the rest.
   */
  lemma ParseImagesConcat(a: string, b: string)
    requires CommaFree(a)
    ensures ParseImages(a + [','] + b) == ParseImages(a) + ParseImages(b)
  {
    SplitAfterPiece(a, b);
    SplitSingle(a);
    var rest := Split(b, ',');
    assert forall k :: 0 <= k < |rest| ==> CommaFree(rest[k]);
    TrimAllConcat([a], rest);
    FilterConcat(TrimAll([a]), TrimAll(rest), NonEmpty);
  }

  /** Trimming a concatenation trims each part. */
  lemma TrimAllConcat(x: seq<string>, y: seq<string>)
    requires forall k :: 0 <= k < |x| ==> CommaFree(x[k])
    requires forall k :: 0 <= k < |y| ==> CommaFree(y[k])
    ensures TrimAll(x + y) == TrimAll(x) + TrimAll(y)
  {
    MapConcat(x, y, Trim);
  }

  datatype GuardOutcome = RenderChildren | RedirectTo(path: string)

  /** The route guard: anonymous visitors go to /login, non-hosts on host pages go home. */
  function RequireAuth(user: Option<UserPublic>, hostOnly: bool): (g: GuardOutcome)
    ensures g == RenderChildren <==> user.Some? && (!hostOnly || user.value.isHost)
    ensures g == RedirectTo("/login") <==> user.None?
    ensures g == RedirectTo("/") <==> user.Some? && hostOnly && !user.value.isHost
  {
    if user.None? then RedirectTo("/login")
    else if hostOnly && !user.value.isHost then RedirectTo("/")
    else RenderChildren
  }

  /** Search filters; a key mapped to `None` is present but undefined. */
  type Filters = map<string, Option<string>>

  /** A filter input changed: an empty value clears the key, and no other key changes. */
  function HandleFilterChange(prev: Filters, key: string, value: string): (next: Filters)
    ensures next.Keys == prev.Keys + {key}
    ensures value == "" ==> next[key] == None
    ensures value != "" ==> next[key] == Some(value)
    ensures forall k :: k in prev && k != key ==> next[k] == prev[k]
  {
    prev[key := if value == "" then None else Some(value)]
  }
}

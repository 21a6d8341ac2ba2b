/** Path normalisation of src/tiresias/proxy/generic.py:20-48 and the cost lookup of
    src/tiresias/tracking/api_pricing.py. */
module Paths {
  import opened Counting
  import opened Datetimes
  import opened EndpointBuckets
  import opened Strings

  const ID: string := "{id}"

  predicate IsHex(c: char) {
    '0' <= c <= '9' || 'a' <= c <= 'f' || 'A' <= c <= 'F'
  }

  /** A letter range under case-insensitive matching: four letters beyond ASCII fold into it. */
  predicate IsLetter(c: char) {
    'a' <= c <= 'z' || 'A' <= c <= 'Z' || c in {'\U{0130}', '\U{0131}', '\U{017F}', '\U{212A}'}
  }

  predicate AllHex(s: string) {
    forall i :: 0 <= i < |s| ==> IsHex(s[i])
  }

  predicate IsUuid(s: string) {
    && |s| == 36 && s[8] == s[13] == s[18] == s[23] == '-'
    && AllHex(s[..8]) && AllHex(s[9..13]) && AllHex(s[14..18]) && AllHex(s[19..23]) && AllHex(s[24..])
  }

  predicate IsNumber(s: string) {
    s != "" && forall i :: 0 <= i < |s| ==> IsDigit(s[i])
  }

  /** The underscore of a prefixed identifier is at `k`. */
  predicate UnderscoreAt(s: string, k: int) {
    && 1 <= k <= 6 && k + 9 <= |s| && s[k] == '_'
    && (forall i :: 0 <= i < k ==> IsLetter(s[i]))
    && (forall i :: k < i < |s| ==> IsLetter(s[i]) || IsDigit(s[i]))
  }

  /** One to six letters, an underscore, and eight or more letters or digits. */
  predicate IsPrefixedId(s: string) {
    exists k :: 1 <= k <= 6 && UnderscoreAt(s, k)
  }

  predicate IsId(s: string) {
    IsUuid(s) || IsNumber(s) || IsPrefixedId(s) || (|s| >= 24 && AllHex(s))
  }

  /** The pattern's end also matches just before a final newline. */
  predicate IsIdLike(segment: string) {
    IsId(segment) || (segment != "" && segment[|segment| - 1] == '\n' && IsId(segment[..|segment| - 1]))
  }

  function NormalSegment(segment: string): string {
    if IsIdLike(segment) then ID else segment
  }

  function NormalSegments(segments: seq<string>): (r: seq<string>)
    ensures |r| == |segments| && forall i :: 0 <= i < |r| ==> r[i] == NormalSegment(segments[i])
  {
    if segments == [] then [] else [NormalSegment(segments[0])] + NormalSegments(segments[1..])
  }

  function Normalized(path: string): string {
    Join(NormalSegments(Split(path, '/')), '/')
  }

  /** The loop over the segments of a path. */
  method NormalizePath(path: string) returns (r: string)
    ensures r == Normalized(path)
  {
    var segments := Split(path, '/');
    var normalized: seq<string> := [];
    for i := 0 to |segments|
      invariant |normalized| == i
      invariant forall j :: 0 <= j < i ==> normalized[j] == NormalSegment(segments[j])
    {
      if segments[i] != "" && IsIdLike(segments[i]) {
        normalized := normalized + [ID];
      } else {
        normalized := normalized + [segments[i]];
      }
    }
    assert normalized == NormalSegments(segments);
    r := Join(normalized, '/');
  }

  // ----- what looks like an ID

  const DIGITS: string := "0123456789"
  const HEX: string := DIGITS + "abcdefABCDEF"
  const LOWER: string := "abcdefghijklmnopqrstuvwxyz"
  const UPPER: string := "ABCDEFGHIJKLMNOPQRSTUVWXYZ"
  const FOLDING: string := "\U{0130}\U{0131}\U{017F}\U{212A}"   // fold into i, i, s and k
  const LETTERS: string := LOWER + UPPER + FOLDING

  lemma CharClasses(c: char)
    ensures IsDigit(c) <==> c in DIGITS
    ensures IsHex(c) <==> c in HEX
  {
  }

  lemma LowerClass(c: char)
    ensures c in LOWER <==> 'a' <= c <= 'z'
  {
  }

  lemma UpperClass(c: char)
    ensures c in UPPER <==> 'A' <= c <= 'Z'
  {
  }

  lemma {:induction false} LetterClass(c: char)
    ensures IsLetter(c) <==> c in LETTERS
  {
    LowerClass(c);
    UpperClass(c);
    InEither(LOWER, UPPER, c);
    InEither(LOWER + UPPER, FOLDING, c);
  }

  lemma InEither(a: string, b: string, c: char)
    ensures c in a + b <==> c in a || c in b
  {
  }

  predicate InAll(s: string, chars: string) {
    forall i :: 0 <= i < |s| ==> s[i] in chars
  }

  predicate WrittenUuid(s: string) {
    |s| == 36 && forall i :: 0 <= i < 36 ==> if i in {8, 13, 18, 23} then s[i] == '-' else s[i] in HEX
  }

  predicate WrittenPrefixed(s: string, k: int) {
    && 1 <= k <= 6 && k + 9 <= |s| && s[k] == '_'
    && (forall i :: 0 <= i < k ==> s[i] in LETTERS)
    && (forall i :: k < i < |s| ==> s[i] in LETTERS || s[i] in DIGITS)
  }

  /** A UUID, a number, a prefixed identifier, or 24 or more hexadecimal digits, character by
      character. */
  predicate IsWrittenId(s: string) {
    WrittenUuid(s) || (s != "" && InAll(s, DIGITS)) || (exists k :: 1 <= k <= 6 && WrittenPrefixed(s, k)) || (|s| >= 24 && InAll(s, HEX))
  }

  lemma {:induction false} StringClasses(s: string)
    ensures AllHex(s) <==> InAll(s, HEX)
    ensures IsNumber(s) <==> s != "" && InAll(s, DIGITS)
  {
    forall i | 0 <= i < |s| ensures (IsHex(s[i]) <==> s[i] in HEX) && (IsDigit(s[i]) <==> s[i] in DIGITS) {
      CharClasses(s[i]);
    }
  }

  lemma {:induction false} SliceIsHex(s: string, from: nat, to: nat)
    requires from <= to <= |s|
    ensures AllHex(s[from..to]) <==> forall i :: from <= i < to ==> s[i] in HEX
  {
    var slice := s[from..to];
    StringClasses(slice);
    if AllHex(slice) {
      forall i | from <= i < to ensures s[i] in HEX {
        assert slice[i - from] == s[i];
      }
    }
  }

  lemma {:induction false} UuidIsWritten(s: string)
    ensures IsUuid(s) <==> WrittenUuid(s)
  {
    if |s| == 36 {
      SliceIsHex(s, 0, 8);
      SliceIsHex(s, 9, 13);
      SliceIsHex(s, 14, 18);
      SliceIsHex(s, 19, 23);
      SliceIsHex(s, 24, 36);
      assert s[..8] == s[0..8] && s[24..] == s[24..36];
    }
  }

  lemma {:induction false} PrefixedIsWritten(s: string, k: int)
    ensures UnderscoreAt(s, k) <==> WrittenPrefixed(s, k)
  {
    forall i | 0 <= i < |s| ensures (IsLetter(s[i]) <==> s[i] in LETTERS) && (IsDigit(s[i]) <==> s[i] in DIGITS) {
      CharClasses(s[i]);
      LetterClass(s[i]);
    }
  }

  lemma {:induction false} IdIsWritten(s: string)
    ensures IsId(s) <==> IsWrittenId(s)
  {
    UuidIsWritten(s);
    StringClasses(s);
    forall k ensures UnderscoreAt(s, k) <==> WrittenPrefixed(s, k) {
      PrefixedIsWritten(s, k);
    }
  }

  /** A segment looks like an ID exactly when, with at most one newline at its end cut off, it is
      a UUID, a number, a prefixed identifier, or 24 or more hexadecimal digits. */
  lemma {:induction false} IdsAre(segment: string)
    ensures IsIdLike(segment) <==>
      || IsWrittenId(segment)
      || (segment != "" && segment[|segment| - 1] == '\n' && IsWrittenId(segment[..|segment| - 1]))
  {
    IdIsWritten(segment);
    if segment != "" {
      IdIsWritten(segment[..|segment| - 1]);
    }
  }

  lemma {:induction false} PlaceholderIsNoId()
    ensures !IsIdLike(ID) && '/' !in ID
  {
    assert ID[0] == '{';
  }

  /** Splitting a normalised path gives back the normalised segments: their number never
      changes and no placeholder is ever cut. */
  lemma {:induction false} SegmentsOfNormalized(path: string)
    ensures Split(Normalized(path), '/') == NormalSegments(Split(path, '/'))
    ensures |Split(Normalized(path), '/')| == |Split(path, '/')|
  {
    SplitPartsFree(path, '/');
    PlaceholderIsNoId();
    SplitOfJoin(NormalSegments(Split(path, '/')), '/');
  }

  /** Normalising twice is normalising once. */
  lemma {:induction false} NormalizeIsIdempotent(path: string)
    ensures Normalized(Normalized(path)) == Normalized(path)
  {
    SegmentsOfNormalized(path);
    PlaceholderIsNoId();
    var once := NormalSegments(Split(path, '/'));
    assert NormalSegments(once) == once;
  }

  /** A segment that a pattern shows as the placeholder. */
  predicate ShowsAsId(segment: string) {
    IsIdLike(segment) || segment == ID
  }

  /** Equally many segments, differing only where both show as the placeholder. */
  predicate SameShape(ps: seq<string>, qs: seq<string>) {
    |ps| == |qs| && forall i :: 0 <= i < |ps| ==> ps[i] == qs[i] || (ShowsAsId(ps[i]) && ShowsAsId(qs[i]))
  }

  lemma {:induction false} SameShapeSegments(ps: seq<string>, qs: seq<string>)
    ensures NormalSegments(ps) == NormalSegments(qs) <==> SameShape(ps, qs)
  {
    var np, nq := NormalSegments(ps), NormalSegments(qs);
    if np == nq {
      forall i | 0 <= i < |ps| ensures ps[i] == qs[i] || (ShowsAsId(ps[i]) && ShowsAsId(qs[i])) {
        assert np[i] == nq[i];
      }
    }
  }

  /** Two paths have the same pattern exactly when they have equally many segments and
      differ only where both segments show as the placeholder. */
  lemma {:induction false} SamePatternExactlyWhen(p: string, q: string)
    ensures Normalized(p) == Normalized(q) <==> SameShape(Split(p, '/'), Split(q, '/'))
  {
    SegmentsOfNormalized(p);
    SegmentsOfNormalized(q);
    SameShapeSegments(Split(p, '/'), Split(q, '/'));
  }

  /** The documentation of the function shows "/2010-04-01/Accounts/AC1234567890abcdef" as an
      example of an ID that is replaced. It is not: the segment has neither an underscore nor the
      24 digits of a long hexadecimal ID. */
  lemma {:induction false} DocumentedExampleIsKept()
    ensures !IsIdLike("AC1234567890abcdef")
  {
    var s := "AC1234567890abcdef";
    assert s[0] == 'A' && s[1] == 'C' && |s| == 18;
    assert forall i :: 0 <= i < |s| ==> s[i] != '_' && s[i] != '\n';
  }

  // ----- the cost of a call

  const DEFAULT: string := "__default__"

  /** A price table: prices by pattern, in units of 0.0001 USD, and its keys in order. */
  datatype PriceTable = PriceTable(keys: seq<string>, price: map<string, int>)

  ghost predicate ValidTable(t: PriceTable) {
    forall k :: k in t.keys <==> k in t.price
  }

  const STRIPE := PriceTable(
    ["/v1/charges", "/v1/payment_intents", "/v1/customers", "/v1/subscriptions", "/v1/refunds", "/v1/invoices",
     "/v1/products", "/v1/prices", "/v1/events", "__default__"],
    map["/v1/charges" := 0, "/v1/payment_intents" := 0, "/v1/customers" := 0, "/v1/subscriptions" := 0,
        "/v1/refunds" := 0, "/v1/invoices" := 0, "/v1/products" := 0, "/v1/prices" := 0, "/v1/events" := 0,
        "__default__" := 0])

  const TWILIO := PriceTable(
    ["/2010-04-01/Accounts/{id}/Messages", "/2010-04-01/Accounts/{id}/Messages.json",
     "/2010-04-01/Accounts/{id}/Calls", "/2010-04-01/Accounts/{id}/Calls.json",
     "/2010-04-01/Accounts/{id}/IncomingPhoneNumbers", "__default__"],
    map["/2010-04-01/Accounts/{id}/Messages" := 79, "/2010-04-01/Accounts/{id}/Messages.json" := 79,
        "/2010-04-01/Accounts/{id}/Calls" := 130, "/2010-04-01/Accounts/{id}/Calls.json" := 130,
        "/2010-04-01/Accounts/{id}/IncomingPhoneNumbers" := 0, "__default__" := 0])

  /** The table of a service, by its lower-cased name. */
  function ServiceTable(lowerName: string): (r: seq<PriceTable>)
    ensures |r| <= 1
  {
    match lowerName
    case "stripe" => [STRIPE]
    case "twilio" => [TWILIO]
    case _ => []
  }

  /** `k` is a priced pattern that starts the path, and none that does is longer. */
  predicate IsLongestPrefix(t: PriceTable, path: string, k: string) {
    && k in t.price && k != DEFAULT && k <= path
    && forall k' :: k' in t.price && k' != DEFAULT && k' <= path ==> |k'| <= |k|
  }

  /** There is at most one longest prefix, so the order of the table cannot matter. */
  lemma {:induction false} LongestPrefixIsUnique(t: PriceTable, path: string, k1: string, k2: string)
    requires IsLongestPrefix(t, path, k1) && IsLongestPrefix(t, path, k2)
    ensures k1 == k2
  {
    assert k1 == path[..|k1|] && k2 == path[..|k2|];
  }

  function DefaultPrice(t: PriceTable): int {
    if DEFAULT in t.price then t.price[DEFAULT] else 0
  }

  predicate NoPrefix(t: PriceTable, path: string) {
    forall k :: k in t.price && k != DEFAULT ==> !(k <= path)
  }

  /** The cost of a call in one table: the price of the longest priced prefix of its
      pattern (an exact match is one), or else the default price, which is also what the
      literal path "__default__" costs. */
  ghost predicate IsCost(t: PriceTable, path: string, cost: int) {
    if path == DEFAULT && DEFAULT in t.price then cost == DefaultPrice(t)
    else if NoPrefix(t, path) then cost == DefaultPrice(t)
    else exists k :: IsLongestPrefix(t, path, k) && cost == t.price[k]
  }

  /** The longest-prefix cost is one value, in whatever order the table lists its keys. */
  lemma {:induction false} CostIsUnique(t: PriceTable, u: PriceTable, path: string, a: int, b: int)
    requires t.price == u.price && IsCost(t, path, a) && IsCost(u, path, b)
    ensures a == b
  {
    if !(path == DEFAULT && DEFAULT in t.price) && !NoPrefix(t, path) {
      assert !NoPrefix(u, path);
      var k1 :| IsLongestPrefix(t, path, k1) && a == t.price[k1];
      var k2 :| IsLongestPrefix(u, path, k2) && b == u.price[k2];
      assert IsLongestPrefix(t, path, k2);
      LongestPrefixIsUnique(t, path, k1, k2);
    }
  }

  /** The scan with a mutable best match, behind the exact-match test. */
  method TableCost(t: PriceTable, path: string) returns (cost: int)
    requires ValidTable(t)
    ensures IsCost(t, path, cost)
  {
    if path in t.price {
      if path != DEFAULT {
        assert IsLongestPrefix(t, path, path);
      }
      return t.price[path];
    }
    var best := "";
    var found := false;
    for i := 0 to |t.keys|
      invariant found ==> best in t.price && best != DEFAULT && best <= path
      invariant found ==> forall j :: 0 <= j < i && t.keys[j] != DEFAULT && t.keys[j] <= path ==> |t.keys[j]| <= |best|
      invariant !found ==> forall j :: 0 <= j < i && t.keys[j] != DEFAULT ==> !(t.keys[j] <= path)
    {
      var key := t.keys[i];
      if key != DEFAULT && key <= path && (!found || |key| > |best|) {
        best, found := key, true;
      }
    }
    if found {
      assert IsLongestPrefix(t, path, best);
      cost := t.price[best];
    } else {
      cost := DefaultPrice(t);
    }
  }

  lemma ServiceTablesAreValid(lowerName: string)
    ensures forall t :: t in ServiceTable(lowerName) ==> ValidTable(t)
  {
  }

  /** calculate_api_cost: nothing for no service or an unknown one. `lower` is the lower-case
      function of the runtime. */
  method CalculateApiCost(lower: string -> string, service: string, pattern: string) returns (cost: int)
    ensures service == "" || ServiceTable(lower(service)) == [] ==> cost == 0
    ensures service != "" && ServiceTable(lower(service)) != [] ==> IsCost(ServiceTable(lower(service))[0], pattern, cost)
  {
    if service == "" {
      return 0;
    }
    var tables := ServiceTable(lower(service));
    if tables == [] {
      return 0;
    }
    ServiceTablesAreValid(lower(service));
    assert tables[0] in tables;
    cost := TableCost(tables[0], pattern);
  }

  function WithoutLeading(path: string, c: char): string {
    if path != "" && path[0] == c then WithoutLeading(path[1..], c) else path
  }

  /** All leading ones are gone and nothing else is. */
  lemma {:induction false} OnlyLeadingGo(path: string, c: char)
    ensures WithoutLeading(path, c) != "" ==> WithoutLeading(path, c)[0] != c
    ensures exists n: nat :: path == Repeated(c, n) + WithoutLeading(path, c)
  {
    if path != "" && path[0] == c {
      OnlyLeadingGo(path[1..], c);
      var n: nat :| path[1..] == Repeated(c, n) + WithoutLeading(path[1..], c);
      assert path == [c] + path[1..] == Repeated(c, n + 1) + WithoutLeading(path, c);
    } else {
      assert path == Repeated(c, 0) + path;
    }
  }

  /** The pattern under which a call is recorded: the path starts with exactly one slash. */
  function RecordedPattern(path: string): string {
    Normalized("/" + WithoutLeading(path, '/'))
  }

  /** Equally many segments, differing only where both look like IDs. */
  predicate SameButIds(ps: seq<string>, qs: seq<string>) {
    |ps| == |qs| && forall i :: 0 <= i < |ps| ==> ps[i] == qs[i] || (IsIdLike(ps[i]) && IsIdLike(qs[i]))
  }

  /** Leading slashes are empty segments, which do not look like IDs, so both paths lose the same
      number of them. */
  lemma {:induction false} SameWithoutLeading(p: string, q: string)
    requires SameButIds(Split(p, '/'), Split(q, '/'))
    ensures SameButIds(Split("/" + WithoutLeading(p, '/'), '/'), Split("/" + WithoutLeading(q, '/'), '/'))
  {
    var ps, qs := Split(p, '/'), Split(q, '/');
    assert !IsIdLike("");
    assert ps[0] == "" <==> qs[0] == "";
    if p != "" && p[0] == '/' {
      assert q != "" && q[0] == '/';
      assert ps == [""] + Split(p[1..], '/') && qs == [""] + Split(q[1..], '/');
      assert forall i :: 0 <= i < |ps| - 1 ==> ps[i + 1] == Split(p[1..], '/')[i] && qs[i + 1] == Split(q[1..], '/')[i];
      SameWithoutLeading(p[1..], q[1..]);
    } else {
      assert q == "" || q[0] != '/';
      assert ("/" + p)[1..] == p && ("/" + q)[1..] == q;
    }
  }

  /** How a call is recorded: one whose upstream raised is a 502 that costs nothing. */
  ghost predicate RecordedAs(t: PriceTable, r: ApiRow, answered: bool) {
    && r.pattern == RecordedPattern(r.path)
    && if answered then IsCost(t, r.pattern, r.cost) else r.status == 502 && r.cost == 0
  }

  /** Two calls of one service, method and hour whose paths differ only in ID-like segments are
      accounted for together: they have one pattern and one bucket. They cost the same if both
      were answered or both were not, and otherwise exactly if the pattern is free. */
  lemma {:induction false} SameAccountingForIds(t: PriceTable, r: ApiRow, q: ApiRow, rAnswered: bool, qAnswered: bool)
    requires SameButIds(Split(r.path, '/'), Split(q.path, '/'))
    requires r.tenant == q.tenant && r.service == q.service && r.httpMethod == q.httpMethod
    requires BucketHour(r.createdAt) == BucketHour(q.createdAt)
    requires RecordedAs(t, r, rAnswered) && RecordedAs(t, q, qAnswered)
    ensures r.pattern == q.pattern && KeyOf(r) == KeyOf(q)
    ensures r.cost == q.cost <==> rAnswered == qAnswered || IsCost(t, r.pattern, 0)
  {
    SameWithoutLeading(r.path, q.path);
    SamePatternExactlyWhen("/" + WithoutLeading(r.path, '/'), "/" + WithoutLeading(q.path, '/'));
    if rAnswered {
      CostIsUnique(t, t, r.pattern, r.cost, if qAnswered then q.cost else r.cost);
      if IsCost(t, r.pattern, 0) {
        CostIsUnique(t, t, r.pattern, r.cost, 0);
      }
    } else if qAnswered && IsCost(t, q.pattern, 0) {
      CostIsUnique(t, t, q.pattern, q.cost, 0);
    }
  }
}

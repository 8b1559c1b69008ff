/** credentials/credentials.go: the L402 credential record, the header that
    presents it, and the parser for the quoted form of the challenge,
    `L402 macaroon="…", invoice="…"`, whose two fields are pulled out by the
    regular expressions `macaroon="([^"]+)"` and `invoice="([^"]+)"`. */
module Credentials {
  import opened Errors
  import opened Strs
  import opened Http
  import opened Values

  /** One L402 credential: the macaroon and invoice of a challenge, the
      preimage that paid it, and the resource it unlocks. */
  datatype L402Credentials = L402Credentials(
    id: Int64,
    externalID: string,
    macaroon: string,
    preimage: string,
    invoice: string,
    createdAt: Timestamp)

  /** AuthenticationHeader: never fails, whatever the fields hold; the
      header is the L402 scheme followed by the macaroon and the preimage
      joined by a colon. */
  function AuthenticationHeader(creds: L402Credentials): (r: Result<string>)
    ensures r.Ok?
    ensures HasPrefix(r.value, "L402 ")
    ensures TrimPrefix(r.value, "L402 ") == creds.macaroon + ":" + creds.preimage
  {
    Ok("L402 " + creds.macaroon + ":" + creds.preimage)
  }

  /** The header starts with the L402 scheme and splits back, at its first
      colon, into the macaroon and the preimage when the macaroon has no
      colon; it is produced even for empty fields. */
  lemma AuthenticationHeaderRoundTrip(creds: L402Credentials)
    requires ':' !in creds.macaroon
    ensures AuthenticationHeader(creds).Ok?
    ensures var h := AuthenticationHeader(creds).value;
      HasPrefix(h, "L402 ")
      && Cut(TrimPrefix(h, "L402 "), ':') == CutResult(creds.macaroon, creds.preimage, true)
  {
    var h := AuthenticationHeader(creds).value;
    var rest := creds.macaroon + ":" + creds.preimage;
    assert h == "L402 " + rest;
    assert TrimPrefix(h, "L402 ") == rest;
    CutAfter(creds.macaroon, ':', creds.preimage);
  }

  /** Cutting `a + [c] + b` at `c`, when `a` has no `c`, gives back `a` and `b`. */
  lemma {:induction false} CutAfter(a: string, c: char, b: string)
    requires c !in a
    ensures Cut(a + [c] + b, c) == CutResult(a, b, true)
  {
    if a != [] {
      assert (a + [c] + b)[1..] == a[1..] + [c] + b;
      CutAfter(a[1..], c, b);
      assert [a[0]] + a[1..] == a;
    }
  }

  // ---------------------------------------------------------------------
  // The quoted-field regular expressions

  /** The regular expression `key="([^"]+)"` matches at index `i`: the
      captured text is everything between the opening quote and the next
      quote, and there must be at least one character of it. */
  function QuotedAt(s: string, key: string, i: nat): (v: Option<string>)
    ensures v.Some? ==> v.value != "" && '"' !in v.value
  {
    var open := key + "\"";
    if !OccursAt(s, open, i) then None
    else
      var cut := Cut(s[i + |open|..], '"');
      if cut.found && cut.before != "" then Some(cut.before) else None
  }

  /** The leftmost match at index `i` or later: what FindStringSubmatch
      captures when started at `i`. */
  function FirstQuoted(s: string, key: string, i: nat): (v: Option<string>)
    ensures v.Some? ==> v.value != "" && '"' !in v.value
    decreases |s| - i
  {
    if i >= |s| then None
    else match QuotedAt(s, key, i)
      case Some(v) => Some(v)
      case None => FirstQuoted(s, key, i + 1)
  }

  /** parseL402Challenge: the macaroon and the invoice, in that order. */
  function QuotedChallenge(challenge: string): (r: Result<(string, string)>)
    ensures r.Ok? ==> r.value.0 != "" && '"' !in r.value.0 && r.value.1 != "" && '"' !in r.value.1
  {
    if challenge == "" then Err(Failure("no L402 challenge/empty header found"))
    else
      var macaroon := FirstQuoted(challenge, "macaroon=", 0);
      var invoice := FirstQuoted(challenge, "invoice=", 0);
      if macaroon.None? || invoice.None? then Err(Failure("missing macaroon/invoice in challenge: " + challenge))
      else Ok((macaroon.value, invoice.value))
  }

  /** ParseL402Challenge: a credential for `externalID` carrying the parsed
      macaroon and invoice and no preimage yet. */
  function ParseL402Challenge(externalID: string, resp: Response): (r: Result<L402Credentials>)
    ensures var parsed := QuotedChallenge(HeaderValue(resp.headers, "WWW-Authenticate"));
      && (parsed.Ok? ==> r == Ok(L402Credentials(0, externalID, parsed.value.0, "", parsed.value.1, ZeroTime)))
      && (parsed.Err? ==> r == Err(Wrapped("invalid L402 challenge header", parsed.error)))
  {
    match QuotedChallenge(HeaderValue(resp.headers, "WWW-Authenticate"))
    case Err(e) => Err(Wrapped("invalid L402 challenge header", e))
    case Ok((macaroon, invoice)) => Ok(L402Credentials(0, externalID, macaroon, "", invoice, ZeroTime))
  }

  // ---------------------------------------------------------------------
  // Properties of the quoted parser

  /** A match found by FirstQuoted is the leftmost one. */
  lemma {:induction false} FirstQuotedIsLeftmost(s: string, key: string, i: nat)
    requires FirstQuoted(s, key, i).Some?
    ensures exists k: nat :: i <= k < |s| && QuotedAt(s, key, k) == FirstQuoted(s, key, i)
                             && forall j: nat :: i <= j < k ==> QuotedAt(s, key, j).None?
    decreases |s| - i
  {
    if QuotedAt(s, key, i).None? {
      FirstQuotedIsLeftmost(s, key, i + 1);
      var k: nat :| i + 1 <= k < |s| && QuotedAt(s, key, k) == FirstQuoted(s, key, i + 1)
                    && forall j: nat :: i + 1 <= j < k ==> QuotedAt(s, key, j).None?;
      assert i <= k < |s| && QuotedAt(s, key, k) == FirstQuoted(s, key, i);
    }
  }

  /** If no match starts before `n`, the scan reaches `n`. */
  lemma {:induction false} ScanSkips(s: string, key: string, i: nat, n: nat)
    requires i <= n < |s|
    requires FreeBefore(s, key + "\"", n)
    ensures FirstQuoted(s, key, i) == FirstQuoted(s, key, n)
    decreases n - i
  {
    if i < n {
      assert !OccursAt(s, key + "\"", i);
      ScanSkips(s, key, i + 1, n);
    }
  }

  /** The text `key="v"`. */
  function Field(key: string, v: string): string {
    key + "\"" + v + "\""
  }

  /** With no earlier `key="`, a field `key="v"` is what the regular
      expression captures. */
  lemma LeftmostField(prefix: string, key: string, v: string, suffix: string)
    requires v != "" && '"' !in v
    requires FreeBefore(prefix + Field(key, v) + suffix, key + "\"", |prefix|)
    ensures FirstQuoted(prefix + Field(key, v) + suffix, key, 0) == Some(v)
  {
    var open := key + "\"";
    var s := prefix + Field(key, v) + suffix;
    assert s == prefix + open + (v + "\"" + suffix);
    ScanSkips(s, key, 0, |prefix|);
    assert s[|prefix|..|prefix| + |open|] == open;
    assert s[|prefix| + |open|..] == v + ['"'] + suffix;
    CutAfter(v, '"', suffix);
  }

  /** Where `key="` occurs: the key, then a quote. */
  lemma OccursParts(s: string, key: string, j: nat)
    ensures OccursAt(s, key + "\"", j)
        <==> j + |key| < |s| && s[j..j + |key|] == key && s[j + |key|] == '"'
  {
    if j + |key| < |s| {
      var w := s[j..j + |key| + 1];
      assert w[..|key|] == s[j..j + |key|];
      assert w == w[..|key|] + [w[|key|]];
      assert (key + "\"")[..|key|] == key;
    }
  }

  /** A string without quotes holds no quoted field. */
  lemma {:induction false} NoQuoteNoField(s: string, key: string, i: nat)
    requires '"' !in s
    ensures FirstQuoted(s, key, i) == None
    decreases |s| - i
  {
    if i < |s| {
      OccursParts(s, key, i);
      NoQuoteNoField(s, key, i + 1);
    }
  }

  /** Any non-empty header without a quote character is rejected as missing
      its fields; the unquoted `L402 macaroon=1234 invoice=1234` is one. */
  lemma UnquotedChallengeRejected(challenge: string)
    requires challenge != "" && '"' !in challenge
    ensures QuotedChallenge(challenge) == Err(Failure("missing macaroon/invoice in challenge: " + challenge))
  {
    NoQuoteNoField(challenge, "macaroon=", 0);
  }

  /** The empty header has its own error. */
  lemma EmptyChallengeRejected()
    ensures QuotedChallenge("") == Err(Failure("no L402 challenge/empty header found"))
  {
  }

  /** The fields may come in either order: both headers give the same
      macaroon and invoice, provided neither value ends with the other
      field's key. */
  lemma QuotedFieldsAnyOrder(m: string, i: string)
    requires m != "" && '"' !in m && i != "" && '"' !in i
    requires !EndsWith(m, "invoice=") && !EndsWith(i, "macaroon=")
    ensures QuotedChallenge("L402 " + Field("macaroon=", m) + ", " + Field("invoice=", i)) == Ok((m, i))
    ensures QuotedChallenge("L402 " + Field("invoice=", i) + ", " + Field("macaroon=", m)) == Ok((m, i))
  {
    assert ("L402 " + "macaroon=")[6] == 'a';
    assert ("L402 " + "invoice=")[4] == ' ';
    TwoFields("L402 ", "macaroon=", m, "invoice=", i);
    TwoFields("L402 ", "invoice=", i, "macaroon=", m);
  }

  /** Both fields of `scheme k1="v1", k2="v2"` are found. */
  lemma TwoFields(scheme: string, k1: string, v1: string, k2: string, v2: string)
    requires '"' !in scheme && k1 != "" && '"' !in k1 && k2 != "" && '"' !in k2
    requires v1 != "" && '"' !in v1 && v2 != "" && '"' !in v2
    requires !EndsWith(scheme + k1, k2) && !EndsWith(v1, k2)
    ensures var h := scheme + Field(k1, v1) + ", " + Field(k2, v2);
      FirstQuoted(h, k1, 0) == Some(v1) && FirstQuoted(h, k2, 0) == Some(v2)
  {
    FirstOfTwo(scheme, k1, v1, ", " + Field(k2, v2));
    assert scheme + Field(k1, v1) + ", " + Field(k2, v2) == scheme + Field(k1, v1) + (", " + Field(k2, v2));
    SecondOfTwo(scheme, k1, v1, k2, v2);
  }

  /** The second field of `scheme k1="v1", k2="v2"` is found. */
  lemma SecondOfTwo(scheme: string, k1: string, v1: string, k2: string, v2: string)
    requires '"' !in scheme && '"' !in k1 && k2 != "" && '"' !in k2
    requires '"' !in v1 && v2 != "" && '"' !in v2
    requires !EndsWith(scheme + k1, k2) && !EndsWith(v1, k2)
    ensures FirstQuoted(scheme + Field(k1, v1) + ", " + Field(k2, v2), k2, 0) == Some(v2)
  {
    SecondKeyFree(scheme, k1, v1, k2, v2);
    var p := scheme + Field(k1, v1) + ", ";
    assert p + Field(k2, v2) + "" == p + Field(k2, v2);
    LeftmostField(p, k2, v2, "");
  }

  /** The first field of a header whose scheme has no quote is found. */
  lemma FirstOfTwo(scheme: string, k1: string, v1: string, tail: string)
    requires '"' !in scheme && '"' !in k1 && v1 != "" && '"' !in v1
    ensures FirstQuoted(scheme + Field(k1, v1) + tail, k1, 0) == Some(v1)
  {
    var h := scheme + Field(k1, v1) + tail;
    assert h[..|scheme| + |k1|] == scheme + k1;
    NoQuoteBefore(h, k1, |scheme|);
    LeftmostField(scheme, k1, v1, tail);
  }

  /** With no quote among the first `n + |key|` characters, no `key="` starts before `n`. */
  lemma NoQuoteBefore(s: string, key: string, n: nat)
    requires n + |key| <= |s| && '"' !in s[..n + |key|]
    ensures FreeBefore(s, key + "\"", n)
  {
    forall j: nat | j < n ensures !OccursAt(s, key + "\"", j) {
      OccursParts(s, key, j);
      assert s[j + |key|] == s[..n + |key|][j + |key|];
    }
  }

  /** `a + v` cannot end with a quote-free key that `v` does not end with,
      when `a` ends with a quote. */
  lemma QuoteBlocksSuffix(a: string, v: string, key: string)
    requires a != [] && a[|a| - 1] == '"' && '"' !in key && !EndsWith(v, key)
    ensures !EndsWith(a + v, key)
  {
    var w := a + v;
    if |v| < |key| <= |w| {
      assert w[|w| - |key|..][|key| - |v| - 1] == '"';
    }
    if |key| <= |v| {
      assert w[|w| - |key|..] == v[|v| - |key|..];
    }
  }

  /** In `scheme k1="v1", k2="v2"` the text `k2"` first occurs at the second
      field, unless the text before one of the first field's quotes ends with `k2`. */
  lemma SecondKeyFree(scheme: string, k1: string, v1: string, k2: string, v2: string)
    requires '"' !in scheme && '"' !in k1 && '"' !in v1 && k2 != "" && '"' !in k2
    requires !EndsWith(scheme + k1, k2) && !EndsWith(v1, k2)
    ensures var p := scheme + Field(k1, v1) + ", ";
      FreeBefore(p + Field(k2, v2), k2 + "\"", |p|)
  {
    var a := scheme + k1 + "\"";
    QuoteBlocksSuffix(a, v1, k2);
    assert a[..|a| - 1] == scheme + k1;
    var p := scheme + Field(k1, v1) + ", ";
    assert p + Field(k2, v2) == a + v1 + "\", " + k2 + "\"" + (v2 + "\"");
    FieldAfterQuotes(a, v1, k2, v2 + "\"");
  }

  /** In `a + v1 + "\", " + key + "\"" + rest`, where `a` ends with the
      quote that opens `v1`, the text `key"` first occurs at the second
      field, unless the text before one of the two quotes ends with `key`. */
  lemma FieldAfterQuotes(a: string, v1: string, key: string, rest: string)
    requires key != "" && '"' !in key && '"' !in v1
    requires a != [] && a[|a| - 1] == '"' && '"' !in a[..|a| - 1]
    requires !EndsWith(a[..|a| - 1], key) && !EndsWith(a + v1, key)
    ensures FreeBefore(a + v1 + "\", " + key + "\"" + rest, key + "\"", |a| + |v1| + 3)
  {
    var av := a + v1;
    var p := av + "\", ";
    var q := key + "\"" + rest;
    var h := p + q;
    assert h == a + v1 + "\", " + key + "\"" + rest;
    var n := |p|;
    forall j: nat | j < n ensures !OccursAt(h, key + "\"", j) {
      OccursParts(h, key, j);
      var last := j + |key|;
      if last < |a| - 1 {
        assert h[last] == a[..|a| - 1][last];
      } else if last == |a| - 1 {
        assert h[j..last] == a[..|a| - 1][j..];
      } else if last < |av| {
        assert h[last] == v1[last - |a|];
      } else if last == |av| {
        assert h[j..last] == av[j..];
      } else if last < n {
        assert h[last] == p[last];
      } else {
        assert h[last] == q[last - n] == key[last - n];
      }
    }
  }
}

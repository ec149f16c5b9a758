/**
 * The front end's choice of API address from the host name the page was
 * loaded from: a host on a private network (the address blocks of section 3
 * of RFC 1918) is asked directly, anything else goes to the local backend.
 */
module BaseUrl {
  import opened Text

  const ApiSuffix: string := ":5000/api/v1"
  const LocalApi: string := "http://localhost:5000/api/v1"

  /** The second octet alternatives of the pattern: `1[6-9]`, `2[0-9]` or `3[0-1]`. */
  predicate PrivateSecondOctet(a: char, b: char) {
    (a == '1' && '6' <= b <= '9') || (a == '2' && '0' <= b <= '9') || (a == '3' && (b == '0' || b == '1'))
  }

  /** `/^10\.|^192\.168\.|^172\.(1[6-9]|2[0-9]|3[0-1])\./`: a test on the first characters only. */
  predicate MatchesPrivatePrefix(h: string) {
    StartsWith(h, "10.") || StartsWith(h, "192.168.") ||
    (StartsWith(h, "172.") && |h| >= 7 && PrivateSecondOctet(h[4], h[5]) && h[6] == '.')
  }

  /**
   * `getBaseURL`: the host itself on port 5000 for a private-network prefix,
   * the local backend for everything else. The loopback names are sent to
   * the local backend by their own test, which gives the same answer the
   * last branch would.
   */
  function GetBaseURL(hostname: string): (url: string)
    ensures StartsWith(url, "http://") && EndsWith(url, ApiSuffix)
    ensures MatchesPrivatePrefix(hostname) ==> url == "http://" + hostname + ApiSuffix
    ensures !MatchesPrivatePrefix(hostname) ==> url == LocalApi
  {
    if hostname == "localhost" || hostname == "127.0.0.1" then
      LoopbackNotPrivate();
      LocalApi
    else if MatchesPrivatePrefix(hostname) then
      var url := "http://" + hostname + ApiSuffix;
      assert url[..7] == "http://" && url[|url| - |ApiSuffix|..] == ApiSuffix;
      url
    else LocalApi
  }

  lemma {:induction false} LoopbackNotPrivate()
    ensures !MatchesPrivatePrefix("localhost") && !MatchesPrivatePrefix("127.0.0.1")
  {
    assert "localhost"[..3][0] == 'l';
    assert "127.0.0.1"[..3][1] == '2' && "127.0.0.1"[..4][1] == '2' && "127.0.0.1"[..8][1] == '2';
  }

  /** The three private blocks of RFC 1918, written as the dotted prefixes of a host address. */
  predicate InPrivateBlock(h: string) {
    StartsWith(h, "10.") || StartsWith(h, "192.168.") ||
    exists n: nat :: 16 <= n <= 31 && StartsWith(h, "172." + DecimalNat(n) + ".")
  }

  lemma {:induction false} TwoDigitDecimal(n: nat)
    requires 10 <= n < 100
    ensures DecimalNat(n) == [DigitChar(n / 10), DigitChar(n % 10)]
  {
  }

  /** The pattern matches exactly the host names that start with a private block's prefix. */
  lemma {:induction false} PrivatePrefixIsRfc1918(h: string)
    ensures MatchesPrivatePrefix(h) <==> InPrivateBlock(h)
  {
    if StartsWith(h, "172.") && |h| >= 7 && PrivateSecondOctet(h[4], h[5]) && h[6] == '.' {
      var n: nat := (h[4] as int - '0' as int) * 10 + (h[5] as int - '0' as int);
      TwoDigitDecimal(n);
      assert h[..7] == "172." + DecimalNat(n) + ".";
    }
    if InPrivateBlock(h) && !StartsWith(h, "10.") && !StartsWith(h, "192.168.") {
      var n: nat :| 16 <= n <= 31 && StartsWith(h, "172." + DecimalNat(n) + ".");
      TwoDigitDecimal(n);
      var p := "172." + DecimalNat(n) + ".";
      assert h[..|p|] == p;
      assert h[..4] == p[..4] && h[4] == p[4] && h[5] == p[5] && h[6] == p[6];
    }
  }

  /** `172.15.` and `172.32.`, and every other two-digit second octet outside 16 to 31, miss the pattern. */
  lemma {:induction false} OutsideBlockNotMatched(n: nat, rest: string)
    requires 10 <= n < 100 && !(16 <= n <= 31)
    ensures GetBaseURL("172." + DecimalNat(n) + "." + rest) == LocalApi
  {
    TwoDigitDecimal(n);
    var h := "172." + DecimalNat(n) + "." + rest;
    assert h[1] == '7' && h[4] == DigitChar(n / 10) && h[5] == DigitChar(n % 10);
  }

  /** The test is on the prefix alone: any name starting with `10.`, an address or not, is asked directly. */
  lemma {:induction false} TenPrefixMatches(rest: string)
    ensures GetBaseURL("10." + rest) == "http://10." + rest + ApiSuffix
  {
    var h := "10." + rest;
    assert h[..3] == "10.";
    assert MatchesPrivatePrefix(h);
  }
}

/**
 * The webhook URL check `isValidWebhookURL`: an `NSPredicate` MATCHES test of
 * the whole string against
 *     ^https://discord.com/api/webhooks/\d+/[A-Za-z0-9_-]+$
 * written here as a hand-coded matcher. The '.' between "discord" and "com" is
 * not escaped in the pattern, so it stands for any one character except an ICU
 * line terminator, since MATCHES runs without the dot-all flag.
 */
module WebhookPattern {
  import opened Common
  import Decimal

  /** The fixed text before the unescaped '.'. */
  const SCHEME: string := "https://discord"
  /** The fixed text after the unescaped '.' and before the numeric id. */
  const API_PATH: string := "com/api/webhooks/"
  /** Length of the fixed head: SCHEME, one wildcard character, API_PATH. */
  const HEAD_LENGTH: nat := |SCHEME| + 1 + |API_PATH|

  /** `\d+`, with ASCII digits. */
  predicate IsId(id: string) { |id| >= 1 && Decimal.AllDigits(id) }

  /** `[A-Za-z0-9_-]`. */
  predicate IsTokenChar(c: char)
  {
    ('A' <= c <= 'Z') || ('a' <= c <= 'z') || ('0' <= c <= '9') || c == '_' || c == '-'
  }

  /** `[A-Za-z0-9_-]+`. */
  predicate IsToken(token: string)
  {
    |token| >= 1 && forall i :: 0 <= i < |token| ==> IsTokenChar(token[i])
  }

  /**
   * The characters ICU's '.' does not match without the dot-all flag:
   * U+000A to U+000D, U+0085, U+2028 and U+2029.
   */
  predicate IsLineTerminator(c: char)
  {
    ('\n' <= c <= '\r') || c == '\U{0085}' || c == '\U{2028}' || c == '\U{2029}'
  }

  /** The free parts of a matching string: the wildcard character, the id and the token. */
  datatype Parts = Parts(wildcard: char, id: string, token: string)

  /** The string the pattern spells out from its free parts. */
  function Compose(wildcard: char, id: string, token: string): string
  {
    SCHEME + [wildcard] + API_PATH + id + "/" + token
  }

  /** Reference definition: the strings the pattern denotes. */
  ghost predicate MatchesPattern(url: string)
  {
    exists wildcard: char, id: string, token: string ::
      !IsLineTerminator(wildcard) && IsId(id) && IsToken(token) && url == Compose(wildcard, id, token)
  }

  /** Length of the longest run of digits at the start of `s`. */
  function LeadingDigits(s: string): (k: nat)
    ensures k <= |s|
    ensures Decimal.AllDigits(s[..k])
    ensures k < |s| ==> !Decimal.IsDigit(s[k])
  {
    if s == [] || !Decimal.IsDigit(s[0]) then 0 else 1 + LeadingDigits(s[1..])
  }

  /**
   * The matcher: the fixed head with a wildcard that is not a line terminator,
   * then the maximal run of digits, which must be non-empty and followed by
   * '/', then a non-empty token reaching the end of the string. Whatever it
   * accepts is spelled out by the parts it returns.
   */
  function Split(url: string): (r: Option<Parts>)
    ensures r.Some? ==>
      !IsLineTerminator(r.value.wildcard) && IsId(r.value.id) && IsToken(r.value.token) &&
      url == Compose(r.value.wildcard, r.value.id, r.value.token)
  {
    if |url| < HEAD_LENGTH || url[..|SCHEME|] != SCHEME || IsLineTerminator(url[|SCHEME|])
      || url[|SCHEME| + 1..HEAD_LENGTH] != API_PATH then None
    else
      var rest := url[HEAD_LENGTH..];
      var k := LeadingDigits(rest);
      if k == 0 || k == |rest| || rest[k] != '/' || !IsToken(rest[k + 1..]) then None
      else Some(Parts(url[|SCHEME|], rest[..k], rest[k + 1..]))
  }

  predicate IsValidWebhookURL(url: string)
  {
    Split(url).Some?
  }

  lemma {:induction false} LeadingDigitsOfRun(digits: string, tail: string)
    requires Decimal.AllDigits(digits)
    requires tail == [] || !Decimal.IsDigit(tail[0])
    ensures LeadingDigits(digits + tail) == |digits|
  {
    if digits != [] {
      assert (digits + tail)[1..] == digits[1..] + tail;
      LeadingDigitsOfRun(digits[1..], tail);
    } else {
      assert digits + tail == tail;
    }
  }

  /** The matcher recovers the parts of every string the pattern spells out. */
  lemma SplitComplete(wildcard: char, id: string, token: string)
    requires !IsLineTerminator(wildcard) && IsId(id) && IsToken(token)
    ensures Split(Compose(wildcard, id, token)) == Some(Parts(wildcard, id, token))
  {
    var url := Compose(wildcard, id, token);
    assert url[..|SCHEME|] == SCHEME;
    assert url[|SCHEME|] == wildcard;
    assert url[|SCHEME| + 1..HEAD_LENGTH] == API_PATH;
    var rest := url[HEAD_LENGTH..];
    assert rest == id + ("/" + token);
    LeadingDigitsOfRun(id, "/" + token);
    assert rest[..|id|] == id;
    assert rest[|id| + 1..] == token;
  }

  /** The matcher accepts exactly the strings the pattern denotes. */
  lemma ValidIffMatchesPattern(url: string)
    ensures IsValidWebhookURL(url) <==> MatchesPattern(url)
  {
    if IsValidWebhookURL(url) {
      var p := Split(url).value;
      assert !IsLineTerminator(p.wildcard) && IsId(p.id) && IsToken(p.token) &&
        url == Compose(p.wildcard, p.id, p.token);
    }
    if MatchesPattern(url) {
      var wildcard: char, id: string, token: string :|
        !IsLineTerminator(wildcard) && IsId(id) && IsToken(token) && url == Compose(wildcard, id, token);
      SplitComplete(wildcard, id, token);
    }
  }

  /**
   * Because the '.' is unescaped, a host that only looks like discord.com
   * passes the check just as the real one does.
   */
  lemma WildcardAcceptsLookalikeHost(wildcard: char)
    requires !IsLineTerminator(wildcard)
    ensures IsValidWebhookURL(SCHEME + [wildcard] + "com/api/webhooks/123/abc")
  {
    SplitComplete(wildcard, "123", "abc");
    assert Compose(wildcard, "123", "abc") == SCHEME + [wildcard] + "com/api/webhooks/123/abc";
  }

  /** A line terminator in the wildcard's place fails the check whatever follows. */
  lemma LineTerminatorWildcardRejected(wildcard: char, id: string, token: string)
    requires IsLineTerminator(wildcard)
    ensures !IsValidWebhookURL(Compose(wildcard, id, token))
  {
    var url := Compose(wildcard, id, token);
    assert url[|SCHEME|] == wildcard;
  }
}

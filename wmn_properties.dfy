/** What URL resolution and the "account exists" test promise, stated over
    the definitions of module Wmn. */
module WmnProperties {
  import opened Strings
  import opened Wmn

  /** The placeholder's first character, '{', appears nowhere else in it. */
  lemma TokenHeadUnique()
    ensures Token != [] && Token[0] !in Token[1..]
  {
    assert Token[1..] == "account}";
  }

  /** A template without the placeholder gives the same URL for every user:
      the template with its surrounding spaces cut off. */
  lemma UrlWithoutToken(site: Site, user: string)
    requires !Contains(site.uriCheck, Token)
    ensures UrlForUser(site, user) == TrimSpace(site.uriCheck)
  {
  }

  /** Only the first placeholder is replaced, by the username verbatim; the
      text after it, later placeholders included, is kept as it is. */
  lemma UrlReplacesFirstOnly(site: Site, p: string, q: string, user: string)
    requires site.uriCheck == p + Token + q
    requires !Contains(p, Token)
    ensures UrlForUser(site, user) == TrimSpace(p + user + q)
  {
    TokenHeadUnique();
    ReplaceFirstSplit(p, Token, q, user);
  }

  /** When nothing at either end of the substituted template is a space,
      the URL is exactly the template with its first placeholder replaced by
      the username, whatever characters the username holds. */
  lemma UrlInsertsUserVerbatim(site: Site, p: string, q: string, user: string)
    requires site.uriCheck == p + Token + q
    requires !Contains(p, Token)
    requires Trimmed(p + user + q)
    ensures UrlForUser(site, user) == p + user + q
  {
    UrlReplacesFirstOnly(site, p, q, user);
    TrimSpaceFixpoint(p + user + q);
  }

  /** A template that ends with its only placeholder gives the template's
      head followed by the username. */
  lemma UrlEndingInToken(site: Site, head: string, user: string)
    requires site.uriCheck == head + Token
    requires !Contains(head, Token)
    requires Trimmed(head + user)
    ensures UrlForUser(site, user) == head + user
  {
    assert site.uriCheck == head + Token + [];
    assert head + user + [] == head + user;
    UrlInsertsUserVerbatim(site, head, [], user);
  }

  /** The URL has no space at either end, so trimming it again changes nothing. */
  lemma UrlIsTrimmed(site: Site, user: string)
    ensures var url := UrlForUser(site, user);
      && (url == [] || (!IsSpace(url[0]) && !IsSpace(url[|url| - 1])))
      && TrimSpace(url) == url
  {
    TrimSpaceFixpoint(UrlForUser(site, user));
  }

  /** A status other than the existing-account code is never a match. */
  lemma MismatchedCodeFails(site: Site, statusCode: int, body: string)
    requires statusCode != site.eCode
    ensures !Matches(site, statusCode, body)
  {
  }

  /** A body without the existing-account fragment is never a match. */
  lemma MissingFragmentFails(site: Site, statusCode: int, body: string)
    requires !Contains(body, site.eString)
    ensures !Matches(site, statusCode, body)
  {
  }

  /** With an empty fragment, the test is the status check alone. */
  lemma EmptyFragmentChecksStatusOnly(site: Site, statusCode: int, body: string)
    requires site.eString == []
    ensures Matches(site, statusCode, body) <==> statusCode == site.eCode
  {
    assert OccursAt(body, site.eString, 0) by {
      assert body[0..0] == [];
    }
  }

  /** A fragment occurring at some index of the body, together with the
      right status, is a match. */
  lemma FragmentAtMatches(site: Site, body: string, j: nat)
    requires j + |site.eString| <= |body| && body[j..j + |site.eString|] == site.eString
    ensures Matches(site, site.eCode, body)
  {
    assert OccursAt(body, site.eString, j);
  }

  /** The test reads only the existing-account code and fragment: sites that
      agree on those two fields agree on every response, whatever their
      name, category, known accounts or missing-account signature. */
  lemma MatchesReadsOnlyExistsSignature(site: Site, other: Site, statusCode: int, body: string)
    requires site.eCode == other.eCode && site.eString == other.eString
    ensures Matches(site, statusCode, body) == Matches(other, statusCode, body)
  {
  }
}

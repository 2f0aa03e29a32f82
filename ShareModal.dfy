/** The link the share dialog shows and copies: the address of the item's
    detail page on the current site, or the current address when there is no
    item id. */
module ShareModal {
  import opened Types
  import opened Text

  /** `path.replace(/\/$/, '')`: one trailing slash is removed, if there is
      one; nothing else changes. */
  function StripTrailingSlash(path: string): (r: string)
    ensures r <= path && |path| - 1 <= |r|
    ensures |r| < |path| <==> path != "" && path[|path| - 1] == '/'
    ensures r + path[|r|..] == path
  {
    if path != "" && path[|path| - 1] == '/' then path[..|path| - 1] else path
  }

  /** Putting a slash back after stripping gives the path as it was, when it
      ended in a slash. */
  lemma StripThenSlash(path: string)
    requires path != "" && path[|path| - 1] == '/'
    ensures StripTrailingSlash(path) + "/" == path
  {
  }

  /** Only one slash goes: a path that ends in two keeps the first. */
  lemma StripOneSlashOnly(prefix: string)
    ensures StripTrailingSlash(prefix + "//") == prefix + "/"
  {
  }

  /** The part of the link that does not depend on the item. */
  function BaseUrl(origin: string, pathname: string): string {
    origin + StripTrailingSlash(pathname)
  }

  /** The share link for `prayerId`, given the page's origin, path and full
      address. A missing id and the id 0 are falsy and give the page's own
      address. */
  function ShareUrl(origin: string, pathname: string, href: string, prayerId: Option<int>): (url: string)
    ensures !Truthy(prayerId) ==> url == href
    ensures Truthy(prayerId) ==> url == BaseUrl(origin, pathname) + "/prayer/" + IntToString(prayerId.value)
  {
    if Truthy(prayerId) then BaseUrl(origin, pathname) + "/prayer/" + IntToString(prayerId.value) else href
  }

  /** Two different item ids never share a link. */
  lemma ShareUrlInjective(origin: string, pathname: string, href: string, a: int, b: int)
    requires a != 0 && b != 0 && a != b
    ensures ShareUrl(origin, pathname, href, Some(a)) != ShareUrl(origin, pathname, href, Some(b))
  {
    var prefix := BaseUrl(origin, pathname) + "/prayer/";
    var ua, ub := ShareUrl(origin, pathname, href, Some(a)), ShareUrl(origin, pathname, href, Some(b));
    assert ua[|prefix|..] == IntToString(a);
    assert ub[|prefix|..] == IntToString(b);
    if ua == ub {
      IntToStringInjective(a, b);
    }
  }

  /** For a positive id, the digits after `/prayer/` read back as the id. */
  lemma ShareUrlCarriesId(origin: string, pathname: string, href: string, id: int)
    requires id > 0
    ensures var prefix := BaseUrl(origin, pathname) + "/prayer/";
      && prefix <= ShareUrl(origin, pathname, href, Some(id))
      && ShareUrl(origin, pathname, href, Some(id))[|prefix|..] == NatToString(id)
      && ParseDigits(ShareUrl(origin, pathname, href, Some(id))[|prefix|..]) == id
  {
    var prefix := BaseUrl(origin, pathname) + "/prayer/";
    assert ShareUrl(origin, pathname, href, Some(id))[|prefix|..] == NatToString(id);
    ParseNatToString(id);
  }
}

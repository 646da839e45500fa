/**
 * The three social networks an account can be linked to, and the profile
 * URL prefix the dialog shows in front of the user-name field.
 */
module Socials {
  import opened Handle

  datatype Social = Twitter | Facebook | Reddit

  /** The `prefix` table: every network's profile URLs start with an https
      address that ends in '/', followed by the user name. */
  function Prefix(p: Social): (url: string)
    ensures "https://" <= url
    ensures url[|url| - 1] == '/'
  {
    match p
    case Twitter => "https://twitter.com/"
    case Facebook => "https://www.facebook.com/"
    case Reddit => "https://www.reddit.com/user/"
  }

  /** Pasting the full profile URL shown by the dialog (prefix followed by
      the handle) yields just the handle. */
  lemma ExtractProfileUrl(p: Social, h: string)
    requires '/' !in h
    ensures Extract(Prefix(p) + h) == h
  {
    var s := Prefix(p) + h;
    var k := |Prefix(p)| - 1;
    assert s[k] == '/';
    assert s[k + 1..] == h;
    ExtractAfterLastSlash(s, k);
  }

  /** The dialog's worked cases: a profile URL, a bare handle and a URL
      with nothing after its last '/'. */
  lemma ExtractExamples()
    ensures Extract("https://twitter.com/alice") == "alice"
    ensures Extract("bob") == "bob"
    ensures Extract("https://www.reddit.com/user/") == ""
  {
    ExtractProfileUrl(Twitter, "alice");
    assert Prefix(Twitter) + "alice" == "https://twitter.com/alice";
    ExtractWhole("bob");
    ExtractTrailingSlash("https://www.reddit.com/user/");
  }
}

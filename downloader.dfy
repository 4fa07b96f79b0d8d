/**
 * The HTTP downloader the scrapers share. Its proxies, retries and user agents
 * are not modelled: `site` says which body (if any) a URL finally yields, and
 * `requests` records the URLs asked for, in order.
 */
module Download {
  import opened Wrappers

  /** What each URL of the shop yields: a page body, or `None` when every attempt failed. */
  type Site = string -> Option<string>

  class Downloader {
    const site: Site
    var requests: seq<string>

    constructor (site: Site)
      ensures this.site == site && requests == []
    {
      this.site := site;
      requests := [];
    }

    /** `downloader.get(url)`. */
    method Get(url: string) returns (body: Option<string>)
      modifies this
      ensures body == site(url)
      ensures requests == old(requests) + [url]
    {
      body := site(url);
      requests := requests + [url];
    }
  }
}

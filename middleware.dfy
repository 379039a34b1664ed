/**
 The BrowserSync middleware `function (req, res, next)` as imperative code. The request's
 `url` is a mutable field, the response records the head written and whether it was
 ended, and `next` records how often the chain was continued. `Handle` follows the
 source statement by statement and is proved to carry out `Router.Route`.
 */
module Middleware {
  import opened JsStrings
  import opened Router

  /** The incoming request; downstream handlers see whatever `url` holds afterwards. */
  class Request {
    var url: string

    constructor (url: string)
      ensures this.url == url
    {
      this.url := url;
    }
  }

  /** The response: status and headers once a head is written, and whether it was ended. */
  class Response {
    var statusCode: int
    var headers: map<string, string>
    var headersSent: bool
    var finished: bool

    /** A fresh response, as a server hands it to the first middleware. */
    constructor ()
      ensures statusCode == 200 && headers == map[] && !headersSent && !finished
    {
      statusCode := 200;
      headers := map[];
      headersSent := false;
      finished := false;
    }

    /** `res.writeHead(code, hs)`: sets the status and adds the headers. */
    method WriteHead(code: int, hs: map<string, string>)
      modifies this
      ensures statusCode == code && headers == old(headers) + hs && headersSent
      ensures finished == old(finished)
    {
      statusCode := code;
      headers := headers + hs;
      headersSent := true;
    }

    /** `res.end()`: finishes the response. */
    method End()
      modifies this
      ensures finished && headersSent
      ensures statusCode == old(statusCode) && headers == old(headers)
    {
      headersSent := true;
      finished := true;
    }
  }

  /** The `next` callback: continuing the chain to the following handler. */
  class Next {
    var calls: nat

    constructor ()
      ensures calls == 0
    {
      calls := 0;
    }

    method Call()
      modifies this
      ensures calls == old(calls) + 1
    {
      calls := calls + 1;
    }
  }

  /**
   The middleware. Exactly one branch runs: a redirect writes a 301 with the Location
   header and ends the response without calling `next`; a rewrite changes `req.url` in
   place and calls `next` once; a pass-through only calls `next` once.
   */
  method Handle(req: Request, res: Response, next: Next, keys: set<string>)
    modifies req, res, next
    ensures var d := Route(old(req.url), keys);
      && (d.Redirect? ==>
            res.statusCode == 301 && res.headers == old(res.headers)["Location" := d.location]
            && res.headersSent && res.finished)
      && (!d.Redirect? ==> unchanged(res))
      && (d.Rewrite? ==> req.url == d.target)
      && (!d.Rewrite? ==> req.url == old(req.url))
      && next.calls == old(next.calls) + (if d.Redirect? then 0 else 1)
    ensures req.url != old(req.url) <==> Route(old(req.url), keys).Rewrite?
  {
    if StartsWith(req.url, "/src/") {
      var entry := At(Split(req.url), 2);
      if Includes(keys, entry) {
        res.WriteHead(301, map["Location" := "/" + entry.value]);
        res.End();
      } else {
        next.Call();
      }
    } else if Substring1(req.url) in keys {
      RewriteChangesUrl(req.url, keys);
      req.url := "/src/" + Substring1(req.url) + "/" + Substring1(req.url) + ".html";
      next.Call();
    } else {
      next.Call();
    }
  }

  /**
   A browser that asks for a file under `/src/<e>/` of a (slash-free) entry `e` is sent
   to `/<e>`; its follow-up request for `/<e>` is then served the entry's page.
   */
  method VisitEntryFile(keys: set<string>, e: string, file: string)
    returns (status: int, location: string, finished: bool, continued: nat,
             served: string, followContinued: nat)
    requires e in keys && SlashFree(e)
    ensures status == 301 && location == "/" + e && finished && continued == 0
    ensures served == RewriteTarget(e) && followContinued == 1
  {
    var req := new Request("/src/" + e + "/" + file);
    var res := new Response();
    var next := new Next();
    RedirectsEntryPath(keys, e, file);
    Handle(req, res, next, keys);
    status, location, finished, continued :=
      res.statusCode, res.headers["Location"], res.finished, next.calls;
    var follow := new Request(location);
    var followRes := new Response();
    var followNext := new Next();
    SlashFreeNotUnderSrc(e);
    RewritesEntry(keys, e);
    Handle(follow, followRes, followNext, keys);
    served, followContinued := follow.url, followNext.calls;
  }
}

/** The in-process cache of the embedding provider. */
module EmbeddingCache {
  import opened Prelude

  type Vector = seq<real>

  /** Keyed by the text itself, which stands for its hash. */
  type Cache = map<string, Vector>

  /** One call: a cached vector is returned without asking; otherwise the server's reply is stored, and a failed request stores nothing. */
  function Embedded(cache: Cache, text: string, reply: Option<Vector>): (Cache, Option<Vector>) {
    if text in cache then (cache, Some(cache[text]))
    else if reply.None? then (cache, None)
    else (cache[text := reply.value], reply)
  }

  class EmbeddingProvider {
    var cache: Cache

    constructor ()
      ensures cache == map[]
    {
      cache := map[];
    }

    /** `reply` is what the server would answer to this request; `None` is a failed request. */
    method Embed(text: string, reply: Option<Vector>) returns (vector: Option<Vector>)
      modifies this
      ensures (cache, vector) == Embedded(old(cache), text, reply)
    {
      if text in cache {
        return Some(cache[text]);
      }
      if reply.None? {
        return None;
      }
      cache := cache[text := reply.value];
      vector := reply;
    }
  }

  datatype Request = Request(text: string, reply: Option<Vector>)

  /** The cache after a list of requests. */
  function Served(cache: Cache, requests: seq<Request>): Cache {
    if requests == [] then cache
    else
      var last := requests[|requests| - 1];
      Embedded(Served(cache, requests[..|requests| - 1]), last.text, last.reply).0
  }

  /** Request `i` is the first successful one for its text. */
  ghost predicate FirstSuccess(requests: seq<Request>, i: int) {
    && 0 <= i < |requests| && requests[i].reply.Some?
    && forall j :: 0 <= j < i && requests[j].text == requests[i].text ==> requests[j].reply.None?
  }

  /** Over any sequence of requests a text is embedded once: the first successful reply answers every later request for it. */
  lemma {:induction false} FirstReplyStays(requests: seq<Request>, i: int, reply: Option<Vector>)
    requires FirstSuccess(requests, i)
    ensures var cache := Served(map[], requests);
            && requests[i].text in cache && cache[requests[i].text] == requests[i].reply.value
            && Embedded(cache, requests[i].text, reply) == (cache, requests[i].reply)
  {
    var n := |requests| - 1;
    if i < n {
      assert requests[..n][i] == requests[i];
      FirstReplyStays(requests[..n], i, reply);
    } else {
      NeverServed(requests[..n], requests[i].text);
    }
  }

  lemma {:induction false} NeverServed(requests: seq<Request>, text: string)
    requires forall j :: 0 <= j < |requests| && requests[j].text == text ==> requests[j].reply.None?
    ensures text !in Served(map[], requests)
  {
    if requests != [] { NeverServed(requests[..|requests| - 1], text); }
  }
}

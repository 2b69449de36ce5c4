/** src/hooks.server.js: every response gets the fixed security headers. */
module Hooks {
  import Ascii

  /** Fetch `Headers` store names lower-cased. */
  predicate Normalized(h: map<string, string>) {
    forall k :: k in h ==> Ascii.Lower(k) == k
  }

  type Headers = h: map<string, string> | Normalized(h) witness map[]

  datatype Response = Response(status: int, headers: Headers, body: string)

  /** The `securityHeaders` table, in declaration order. Strict-Transport-Security
      and X-Content-Type-Options are commented out in the source and absent here. */
  const SecurityHeaders: seq<(string, string)> := [
    ("Content-Security-Policy", "default-src 'self' 'unsafe-inline'; img-src *"),
    ("X-Frame-Options", "DENY"),
    ("Cross-Origin-Embedder-Policy", "credentialless"),
    ("Cross-Origin-Opener-Policy", "same-origin"),
    ("X-XSS-Protection", "1; mode=block")
  ]

  /** `headers.set(name, value)`: replaces any value under the name, compared
      case-insensitively. */
  function SetHeader(h: Headers, name: string, value: string): (h': Headers)
    ensures Ascii.Lower(name) in h' && h'[Ascii.Lower(name)] == value
    ensures forall k :: k != Ascii.Lower(name) ==> (k in h' <==> k in h) && (k in h ==> h'[k] == h[k])
  {
    Ascii.LowerIsLower(name);
    h[Ascii.Lower(name) := value]
  }

  /** Setting each table entry on the headers in turn, in table order. */
  function Overlay(h: Headers, entries: seq<(string, string)>): (h': Headers)
    ensures forall k :: k in h ==> k in h'
    ensures forall i :: 0 <= i < |entries| ==> Ascii.Lower(entries[i].0) in h'
    decreases |entries|
  {
    if entries == [] then h else Overlay(SetHeader(h, entries[0].0, entries[0].1), entries[1..])
  }

  /** The stored names of a table's headers. */
  function Names(entries: seq<(string, string)>): set<string> {
    set i | 0 <= i < |entries| :: Ascii.Lower(entries[i].0)
  }

  predicate DistinctNames(entries: seq<(string, string)>) {
    forall i, j :: 0 <= i < j < |entries| ==> Ascii.Lower(entries[i].0) != Ascii.Lower(entries[j].0)
  }

  /** After the overlay each table header holds its table value, and every other
      header is present exactly when it was before, with the same value. */
  lemma {:induction false} OverlayLookup(h: Headers, entries: seq<(string, string)>)
    requires DistinctNames(entries)
    ensures forall i :: 0 <= i < |entries| ==>
              Ascii.Lower(entries[i].0) in Overlay(h, entries)
              && Overlay(h, entries)[Ascii.Lower(entries[i].0)] == entries[i].1
    ensures forall k :: k !in Names(entries) ==>
              (k in Overlay(h, entries) <==> k in h) && (k in h ==> Overlay(h, entries)[k] == h[k])
    decreases |entries|
  {
    if entries != [] {
      var h' := SetHeader(h, entries[0].0, entries[0].1);
      var rest := entries[1..];
      assert DistinctNames(rest) by {
        forall i, j | 0 <= i < j < |rest|
          ensures Ascii.Lower(rest[i].0) != Ascii.Lower(rest[j].0)
        {
          assert rest[i] == entries[i + 1] && rest[j] == entries[j + 1];
        }
      }
      OverlayLookup(h', rest);
      assert Ascii.Lower(entries[0].0) !in Names(rest);
      forall i | 0 <= i < |entries|
        ensures Ascii.Lower(entries[i].0) in Overlay(h, entries)
                && Overlay(h, entries)[Ascii.Lower(entries[i].0)] == entries[i].1
      {
        if i > 0 {
          assert entries[i] == rest[i - 1];
        }
      }
      forall k | k !in Names(entries)
        ensures (k in Overlay(h, entries) <==> k in h) && (k in h ==> Overlay(h, entries)[k] == h[k])
      {
        assert k != Ascii.Lower(entries[0].0);
      }
    }
  }

  /** The five names differ (they even differ in length). */
  lemma SecurityHeaderNamesDistinct()
    ensures DistinctNames(SecurityHeaders)
  {
  }

  /** `handle`: the response `resolve` produced, with the table laid over its
      headers; status and body are that response's own, whatever the request
      path or the status. */
  function Handle<E>(event: E, resolve: E -> Response): (r: Response)
    ensures r.status == resolve(event).status && r.body == resolve(event).body
  {
    var response := resolve(event);
    response.(headers := Overlay(response.headers, SecurityHeaders))
  }

  /** Each table header carries its table value after `handle`, and every header
      outside the table is as `resolve` left it. */
  lemma HandleHeaders<E>(event: E, resolve: E -> Response)
    ensures forall i :: 0 <= i < |SecurityHeaders| ==>
              Ascii.Lower(SecurityHeaders[i].0) in Handle(event, resolve).headers
              && Handle(event, resolve).headers[Ascii.Lower(SecurityHeaders[i].0)] == SecurityHeaders[i].1
    ensures forall k :: k !in Names(SecurityHeaders) ==>
              (k in Handle(event, resolve).headers <==> k in resolve(event).headers)
              && (k in resolve(event).headers ==> Handle(event, resolve).headers[k] == resolve(event).headers[k])
  {
    SecurityHeaderNamesDistinct();
    OverlayLookup(resolve(event).headers, SecurityHeaders);
  }

  /** A stored name whose length is none of the table names' lengths is not
      a table name. */
  lemma NotATableName(k: string)
    requires |k| !in {23, 15, 28, 26, 16}
    ensures k !in Names(SecurityHeaders)
  {
  }

  /** Strict-Transport-Security and X-Content-Type-Options are never set: they
      pass through exactly as `resolve` produced them. */
  lemma NoHstsNoNosniff<E>(event: E, resolve: E -> Response)
    ensures var out := Handle(event, resolve).headers;
            var inp := resolve(event).headers;
            && ("strict-transport-security" in out <==> "strict-transport-security" in inp)
            && ("strict-transport-security" in inp ==> out["strict-transport-security"] == inp["strict-transport-security"])
            && ("x-content-type-options" in out <==> "x-content-type-options" in inp)
            && ("x-content-type-options" in inp ==> out["x-content-type-options"] == inp["x-content-type-options"])
  {
    HandleHeaders(event, resolve);
    NotATableName("strict-transport-security");
    NotATableName("x-content-type-options");
  }

  /** Laying a table with distinct names over twice gives the same headers as
      laying it over once. */
  lemma OverlayIdempotent(h: Headers, entries: seq<(string, string)>)
    requires DistinctNames(entries)
    ensures Overlay(Overlay(h, entries), entries) == Overlay(h, entries)
  {
    var once := Overlay(h, entries);
    var twice := Overlay(once, entries);
    OverlayLookup(h, entries);
    OverlayLookup(once, entries);
    forall k | k in Names(entries)
      ensures k in once && k in twice && twice[k] == once[k]
    {
      var i :| 0 <= i < |entries| && Ascii.Lower(entries[i].0) == k;
    }
    assert forall k :: k in twice <==> k in once;
  }

  /** Running `handle`'s overlay again changes no header. */
  lemma HandleIdempotent<E>(event: E, resolve: E -> Response)
    ensures Overlay(Handle(event, resolve).headers, SecurityHeaders) == Handle(event, resolve).headers
  {
    SecurityHeaderNamesDistinct();
    OverlayIdempotent(resolve(event).headers, SecurityHeaders);
  }
}

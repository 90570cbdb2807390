/** Requests, responses and records of the Idempotency-Key middleware, and the scope key
    under which they are stored. */
module IdempotencyCore {
  import opened Wrappers

  type Time = int

  /** What must agree for two requests to count as the same request. */
  datatype Fingerprint = Fingerprint(verb: string, path: string, requestHash: string)

  datatype Response = Response(status: int, contentType: string, body: seq<bv8>)

  datatype Record = Record(fp: Fingerprint, response: Response, completed: bool, createdAt: Time, expiresAt: Time)

  const INTERNAL_SERVER_ERROR := 500
  const NO_CONTENT := 204

  const EMPTY_RESPONSE := Response(0, "", [])

  predicate ServerError(r: Response) {
    r.status >= INTERNAL_SERVER_ERROR
  }

  /** What a client sees of a stored response: a 204 carries no body. */
  function Replay(r: Response): Response {
    if r.status == NO_CONTENT then r.(body := []) else r
  }

  /** `seen` is what a client may see of the stored response: its status, its content type, and its
      body unless the status says there is none. */
  predicate Shows(seen: Response, stored: Response) {
    && seen.status == stored.status
    && seen.contentType == stored.contentType
    && seen.body == (if stored.status == 204 then [] else stored.body)
  }

  /** How an execution ended; a history variable that no one keeps. */
  datatype Outcome = Pending | Ended(response: Response) | Panicked

  const DEFAULT_WORKSPACE := "default"

  const SEPARATOR: char := '\0'

  /** The workspace a request acts on: the default one when the context carries none. */
  function EffectiveWorkspace(ws: Option<string>): string {
    if ws.None? || ws.value == "" then DEFAULT_WORKSPACE else ws.value
  }

  function ScopeKey(ws: Option<string>, key: string): string {
    EffectiveWorkspace(ws) + [SEPARATOR] + key
  }

  /** Two requests share a scope key exactly when they agree on workspace and key, whatever
      characters the client put in the key: the workspace grammar has no NUL. */
  lemma ScopeKeyInjective(ws1: Option<string>, key1: string, ws2: Option<string>, key2: string)
    requires ws1.Some? ==> SEPARATOR !in ws1.value
    requires ws2.Some? ==> SEPARATOR !in ws2.value
    ensures ScopeKey(ws1, key1) == ScopeKey(ws2, key2)
            <==> EffectiveWorkspace(ws1) == EffectiveWorkspace(ws2) && key1 == key2
  {
    var w1, w2 := EffectiveWorkspace(ws1), EffectiveWorkspace(ws2);
    var s1, s2 := ScopeKey(ws1, key1), ScopeKey(ws2, key2);
    assert s1[|w1|] == SEPARATOR && s2[|w2|] == SEPARATOR;
    assert forall i :: 0 <= i < |w1| ==> s1[i] == w1[i] != SEPARATOR;
    assert forall i :: 0 <= i < |w2| ==> s2[i] == w2[i] != SEPARATOR;
    if s1 == s2 {
      assert |w1| == |w2|;
      assert w1 == s1[..|w1|] && w2 == s2[..|w2|];
      assert key1 == s1[|w1| + 1..] && key2 == s2[|w2| + 1..];
    }
  }
}

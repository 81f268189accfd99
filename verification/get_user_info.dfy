/**
 * The Marketing Cloud user-info task: the response payload is stripped of
 * its `rest` and `application` portions before it is returned. The HTTP
 * request itself is outside this model.
 */
module MarketingCloud {
  import opened Wrappers
  import opened JsonValues

  /** The top-level JSON object of the response, a dictionary shared by reference. */
  class Payload {
    var entries: map<string, Json>

    constructor (entries: map<string, Json>)
      ensures this.entries == entries
    {
      this.entries := entries;
    }

    /** `del d[key]`: removes the key, or reports that it was missing (KeyError). */
    method Delete(key: string) returns (found: bool)
      modifies this
      ensures found == (key in old(entries))
      ensures entries == old(entries) - {key}
    {
      found := key in entries;
      if found {
        entries := entries - {key};
      }
    }
  }

  /**
   * GetUserInfoTask._sanitize_payload: deletes `rest`, then `application`,
   * from the caller's dictionary and returns that same dictionary. A missing
   * `rest` raises KeyError with nothing changed; a missing `application`
   * raises KeyError after `rest` is already gone.
   */
  method SanitizePayload(payload: Payload) returns (r: Result<Payload>)
    modifies payload
    ensures "rest" !in old(payload.entries) ==>
      r == Err(KeyError("rest")) && payload.entries == old(payload.entries)
    ensures "rest" in old(payload.entries) && "application" !in old(payload.entries) ==>
      r == Err(KeyError("application")) && payload.entries == old(payload.entries) - {"rest"}
    ensures "rest" in old(payload.entries) && "application" in old(payload.entries) ==> r == Ok(payload)
    ensures r.Ok? ==>
      "rest" !in payload.entries && "application" !in payload.entries
      && payload.entries.Keys == old(payload.entries).Keys - {"rest", "application"}
      && forall k :: k in payload.entries ==> payload.entries[k] == old(payload.entries)[k]
  {
    var found := payload.Delete("rest");
    if !found {
      return Err(KeyError("rest"));
    }
    found := payload.Delete("application");
    if !found {
      return Err(KeyError("application"));
    }
    return Ok(payload);
  }
}

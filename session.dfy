/** The process-wide session cache shared by the limb test screen and the selection screen:
    the saved point map of every limb tested so far in the current evaluation, keyed by body
    part ("mao_direita", "pe_esquerdo", …). The Kotlin `object` is a singleton; here it is one
    `SessionCache` instance that both screens are handed. */
module Session {

  /** A limb's results: point index to the monofilament level recorded there. */
  type PointMap = map<int, int>

  class SessionCache {
    var results: map<string, PointMap>

    constructor ()
      ensures results == map[]
    {
      results := map[];
    }

    /** `SessionCache.clear()`. */
    method Clear()
      modifies this
      ensures results == map[]
    {
      results := map[];
    }

    /** `SessionCache.results[part] = points`: adds or overwrites one limb. */
    method Put(part: string, points: PointMap)
      modifies this
      ensures results == old(results)[part := points]
      ensures results.Keys == old(results).Keys + {part}
    {
      results := results[part := points];
    }

    /** `SessionCache.results.remove(part)`: drops one limb, whether or not it was there. */
    method Remove(part: string)
      modifies this
      ensures results == old(results) - {part}
      ensures part !in results && results.Keys == old(results).Keys - {part}
    {
      results := results - {part};
    }
  }
}

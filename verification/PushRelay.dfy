/** The relay's rate map, updated in place. */
module PushRelay {
  import opened PushRate

  class Relay {
    var rate: map<string, int>

    constructor ()
      ensures rate == map[]
    {
      rate := map[];
    }

    /** Whether a push to the device for the session may go out now; drops the entries past their window. */
    method Allow(device: string, session: string, now: int) returns (ok: bool)
      modifies this
      ensures ok <==> Allowed(old(rate), Call(Key(device, session), now))
      ensures rate == Next(old(rate), Call(Key(device, session), now))
    {
      var key := device + "|" + session;
      var todo := rate.Keys;
      while todo != {}
        invariant todo <= rate.Keys <= old(rate).Keys
        invariant forall k | k in rate :: rate[k] == old(rate)[k]
        invariant forall k | k in old(rate) && k !in todo :: k in rate <==> now - old(rate)[k] < WINDOW
        decreases todo
      {
        var k :| k in todo;
        todo := todo - {k};
        if now - rate[k] >= WINDOW {
          rate := rate - {k};
        }
      }
      assert rate == Evicted(old(rate), now);
      if key in rate && now - rate[key] < WINDOW {
        return false;
      }
      rate := rate[key := now];
      ok := true;
    }
  }
}

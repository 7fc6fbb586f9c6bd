/** Finding the SkyAlert cloud sensor and the filter wheel on the network
    from their MAC addresses, with a bounded number of retries. The answers
    of the MAC-to-IP lookup are supplied: the k-th lookup answers
    `answers[k]`, and a lookup past the supplied answers finds nothing. */
module Discovery {
  import opened Wrappers
  import opened Hardware

  /** Retries after the first unsuccessful sweep. */
  const Retries: nat := 5
  /** SkyAlert: one lookup, then up to five retries. */
  const SkyAlertLookupLimit: nat := 1 + Retries
  /** FilterWheel: one lookup, one after the power cycle, then up to five retries. */
  const FilterWheelLookupLimit: nat := 2 + Retries

  function LookupAt(answers: seq<Option<string>>, k: nat): Option<string>
  {
    if k < |answers| then answers[k] else None
  }

  function SkyAlertUrl(ip: string): string
  {
    "http://" + ip + ":81"
  }

  /** The filter wheel's address; only the very first lookup's address ends
      in a slash. */
  function FilterWheelUrl(ip: string, firstLookup: bool): string
  {
    "http://" + ip + (if firstLookup then ":8080/" else ":8080")
  }

  /** The number of lookups made when lookups `from`, `from + 1`, ... are
      tried in turn, stopping at the first that finds an address and after
      lookup `limit - 1` at the latest. */
  function LookupsUntilFound(answers: seq<Option<string>>, from: nat, limit: nat): (n: nat)
    ensures from < limit ==> from < n <= limit
    decreases limit - from
  {
    if from >= limit then limit
    else if LookupAt(answers, from).Some? then from + 1
    else LookupsUntilFound(answers, from + 1, limit)
  }

  /** What the lookups made are: at least one more than `from`, at most
      `limit`, all but the last unsuccessful, and the last successful unless
      the limit was reached. */
  lemma {:induction false} LookupsUntilFoundSpec(answers: seq<Option<string>>, from: nat, limit: nat)
    requires from < limit
    ensures var n := LookupsUntilFound(answers, from, limit);
            from < n <= limit &&
            (forall k :: from <= k < n - 1 ==> LookupAt(answers, k).None?) &&
            (LookupAt(answers, n - 1).Some? || n == limit)
    decreases limit - from
  {
    if LookupAt(answers, from).None? && from + 1 < limit {
      LookupsUntilFoundSpec(answers, from + 1, limit);
    }
  }

  /** The last lookup made failed exactly when every allowed lookup fails. */
  lemma AllLookupsFailed(answers: seq<Option<string>>, limit: nat)
    requires limit > 0
    ensures LookupAt(answers, LookupsUntilFound(answers, 0, limit) - 1).None? <==>
            forall k :: 0 <= k < limit ==> LookupAt(answers, k).None?
  {
    LookupsUntilFoundSpec(answers, 0, limit);
  }

  /** Those facts determine the number of lookups. */
  lemma {:induction false} LookupsUntilFoundUnique(answers: seq<Option<string>>, from: nat, limit: nat, n: nat)
    requires from < n <= limit
    requires forall k :: from <= k < n - 1 ==> LookupAt(answers, k).None?
    requires LookupAt(answers, n - 1).Some? || n == limit
    ensures n == LookupsUntilFound(answers, from, limit)
    decreases limit - from
  {
    if n - 1 > from {
      assert LookupAt(answers, from).None?;
      LookupsUntilFoundUnique(answers, from + 1, limit, n);
    }
  }

  /** The commands of filter-wheel discovery that made `lookups` lookups:
      the power cycle of the control port comes after the first lookup and
      only when it failed. */
  function FilterWheelEvents(lookups: nat): seq<Cmd>
  {
    [LookUpMac(FilterWheelDevice)] +
    (if lookups > 1
     then [PowerOff(FilterWheelControlPort), PowerOn(FilterWheelControlPort)]
          + Repeat(LookUpMac(FilterWheelDevice), lookups - 1)
     else [])
  }

  /** Filter-wheel discovery switches at most one port, the control port,
      and only by one power cycle (off, then on) right after a failed first
      lookup; every other command is a lookup. */
  lemma FilterWheelCycleOnce(lookups: nat)
    requires lookups >= 1
    ensures var e := FilterWheelEvents(lookups);
            |e| == (if lookups > 1 then lookups + 2 else 1) &&
            e[0] == LookUpMac(FilterWheelDevice) &&
            (lookups > 1 ==> e[1] == PowerOff(FilterWheelControlPort) && e[2] == PowerOn(FilterWheelControlPort)) &&
            (forall k :: 0 <= k < |e| && k != 1 && k != 2 ==> e[k] == LookUpMac(FilterWheelDevice)) &&
            (forall k :: 0 <= k < |e| && IsPowerCommand(e[k]) ==> lookups > 1 && (k == 1 || k == 2))
  {
    var e := FilterWheelEvents(lookups);
    if lookups > 1 {
      var rest := Repeat(LookUpMac(FilterWheelDevice), lookups - 1);
      assert forall k :: 3 <= k < |e| ==> e[k] == rest[k - 3];
    }
  }

  /** After filter-wheel discovery the control port is on when it was power
      cycled; no other port changes. */
  lemma FilterWheelEventsPower(prefix: seq<Cmd>, lookups: nat, port: Port)
    ensures LastCommanded(prefix + FilterWheelEvents(lookups), port) ==
            if port == FilterWheelControlPort && lookups > 1 then Some(true)
            else LastCommanded(prefix, port)
  {
    var first := [LookUpMac(FilterWheelDevice)];
    UntouchedKeepsState(prefix, first, port);
    if lookups > 1 {
      var cycle := [PowerOff(FilterWheelControlPort), PowerOn(FilterWheelControlPort)];
      var rest := Repeat(LookUpMac(FilterWheelDevice), lookups - 1);
      assert prefix + FilterWheelEvents(lookups) == (prefix + first + cycle) + rest;
      UntouchedKeepsState(prefix + first + cycle, rest, port);
      if port != FilterWheelControlPort {
        UntouchedKeepsState(prefix + first, cycle, port);
      }
    } else {
      assert prefix + FilterWheelEvents(lookups) == prefix + first;
    }
  }

  /** SkyAlert discovery: returns the address found, if any, and the number
      of lookups made. */
  method DiscoverSkyAlert(answers: seq<Option<string>>) returns (ip: Option<string>, lookups: nat)
    ensures 1 <= lookups <= SkyAlertLookupLimit
    ensures forall k :: 0 <= k < lookups - 1 ==> LookupAt(answers, k).None?
    ensures ip == LookupAt(answers, lookups - 1)
    ensures ip.None? ==> lookups == SkyAlertLookupLimit
    ensures lookups == LookupsUntilFound(answers, 0, SkyAlertLookupLimit)
  {
    ip := LookupAt(answers, 0);
    lookups := 1;
    if ip.None? {
      var waitCount := 0;
      var found := false;
      while waitCount < Retries && !found
        invariant 0 <= waitCount <= Retries
        invariant lookups == 1 + waitCount
        invariant ip == LookupAt(answers, lookups - 1)
        invariant found <==> ip.Some?
        invariant forall k :: 0 <= k < lookups - 1 ==> LookupAt(answers, k).None?
      {
        waitCount := waitCount + 1;
        ip := LookupAt(answers, lookups);
        lookups := lookups + 1;
        if ip.Some? {
          found := true;
        }
      }
    }
    LookupsUntilFoundUnique(answers, 0, SkyAlertLookupLimit, lookups);
  }

  /** FilterWheel discovery: returns the filter wheel's address, if found,
      whether the serial port must be used instead, the number of lookups
      and the commands sent. */
  method DiscoverFilterWheel(answers: seq<Option<string>>)
    returns (address: Option<string>, serial: bool, lookups: nat, events: seq<Cmd>)
    ensures 1 <= lookups <= FilterWheelLookupLimit
    ensures forall k :: 0 <= k < lookups - 1 ==> LookupAt(answers, k).None?
    ensures address.Some? <==> LookupAt(answers, lookups - 1).Some?
    ensures address.Some? ==> address.value == FilterWheelUrl(LookupAt(answers, lookups - 1).value, lookups == 1)
    ensures address.None? ==> lookups == FilterWheelLookupLimit
    ensures serial <==> address.None?
    ensures lookups == LookupsUntilFound(answers, 0, FilterWheelLookupLimit)
    ensures events == FilterWheelEvents(lookups)
  {
    serial := false;
    var ip := LookupAt(answers, 0);
    lookups := 1;
    events := [LookUpMac(FilterWheelDevice)];
    if ip.Some? {
      address := Some(FilterWheelUrl(ip.value, true));
      serial := false;
    } else {
      events := events + [PowerOff(FilterWheelControlPort), PowerOn(FilterWheelControlPort)];
      ip := LookupAt(answers, 1);
      lookups := 2;
      events := events + [LookUpMac(FilterWheelDevice)];
      if ip.Some? {
        address := Some(FilterWheelUrl(ip.value, false));
        serial := false;
      } else {
        address := None;
        var waitCount := 0;
        var found := false;
        while waitCount < Retries && !found
          invariant 0 <= waitCount <= Retries
          invariant lookups == 2 + waitCount
          invariant ip == LookupAt(answers, lookups - 1)
          invariant found <==> ip.Some?
          invariant found <==> address.Some?
          invariant found ==> address.value == FilterWheelUrl(ip.value, false)
          invariant serial <==> !found && waitCount > 0
          invariant forall k :: 0 <= k < lookups - 1 ==> LookupAt(answers, k).None?
          invariant events == FilterWheelEvents(lookups)
        {
          waitCount := waitCount + 1;
          ip := LookupAt(answers, lookups);
          lookups := lookups + 1;
          events := events + [LookUpMac(FilterWheelDevice)];
          if ip.Some? {
            address := Some(FilterWheelUrl(ip.value, false));
            serial := false;
            found := true;
          } else {
            serial := true;
          }
        }
      }
    }
    LookupsUntilFoundUnique(answers, 0, FilterWheelLookupLimit, lookups);
  }
}

/** The response interceptor while the handler runs: it stages what the handler writes
    and lets upgrades through with every control and cookie discarded. */
module Interception {
  import opened Response
  import opened Staging

  datatype Sent = Sent(status: int, header: Headers)

  predicate Informational(status: int) { 100 <= status < 200 && status != 101 }

  /** Responses of these kinds carry no body. */
  predicate Bodiless(status: int) { status == 204 || status == 304 || 100 <= status < 200 }

  /** The client's connection: a header map, and what was put on the wire. */
  class Wire {
    var header: Headers
    var sent: seq<Sent>
    var written: bool
    var taken: bool  // handed over to the handler by a successful hijack
    const hijackable: bool

    constructor (header: Headers, hijackable: bool)
      ensures this.header == header && sent == [] && Open() && this.hijackable == hijackable
    {
      this.header, sent, written, taken := header, [], false, false;
      this.hijackable := hijackable;
    }

    /** A final header can still go out. */
    predicate Open() reads this { !written && !taken }

    ghost predicate AllFit(site: Site) reads this { forall s <- sent :: Outward(site, s.header) }

    /** Informational headers go out at once; of the final ones only the first. */
    method WriteHeader(status: int)
      modifies this`sent, this`written
      ensures sent == if old(Open()) then old(sent) + [Sent(status, header)] else old(sent)
      ensures written == (old(written) || (!taken && !Informational(status)))
    {
      if written || taken { return; }
      sent := sent + [Sent(status, header)];
      written := !Informational(status);
    }

    /** Writing, flushing and the end of the request send the header if nothing has. */
    method Commit()
      modifies this`sent, this`written
      ensures sent == if old(Open()) then old(sent) + [Sent(200, header)] else old(sent)
      ensures !Open()
    {
      WriteHeader(200);
    }
  }

  /** The loop over trailer declarations. */
  method StripNames(managed: set<Name>, h: Headers) returns (fields: map<Name, seq<string>>, kept: seq<Name>)
    ensures fields == h.fields - ManagedAmong(managed, h.declared) && kept == Unmanaged(managed, h.declared)
  {
    fields, kept := h.fields, [];
    for i := 0 to |h.declared|
      invariant kept == Unmanaged(managed, h.declared[..i]) && fields == h.fields - ManagedAmong(managed, h.declared[..i])
    {
      var name := h.declared[i];
      assert h.declared[..i + 1] == h.declared[..i] + [name];
      StripOne(managed, h.fields, h.declared[..i], name);
      if name in managed { fields := fields - {name}; } else { kept := kept + [name]; }
    }
    assert h.declared[..|h.declared|] == h.declared;
  }

  lemma StripOne(managed: set<Name>, fields: map<Name, seq<string>>, names: seq<Name>, name: Name)
    ensures var before, after := ManagedAmong(managed, names), ManagedAmong(managed, names + [name]);
            fields - after == if name in managed then fields - before - {name} else fields - before
    ensures Unmanaged(managed, names + [name]) == Unmanaged(managed, names) + if name in managed then [] else [name]
  {
    var before, after := ManagedAmong(managed, names), ManagedAmong(managed, names + [name]);
    assert after == if name in managed then before + {name} else before;
    assert (names + [name])[..|names|] == names;
  }

  method StripTrailers(site: Site, h: Headers) returns (r: Headers)
    ensures r == Stripped(site, h)
  {
    var fields, kept := StripNames(Managed(site), h);
    r := Headers(fields, kept, h.late - Managed(site));
  }

  /** Stripping before deleting and deleting before stripping come to the same. */
  method Scrub(site: Site, h: Headers) returns (r: Headers)
    ensures r == Discarded(site, h) && Outward(site, r)
  {
    r := StripTrailers(site, h);
    r := Del(Del(Del(Del(Del(r, SET_COOKIE), site.identity), site.rotate), site.revoke), site.labels);
    assert r.fields == Discarded(site, h).fields;
    DiscardedIsScrubbed(site, h);
  }

  /** What is left of a handler's headers when they are copied to the wire: they are
      discarded the first time only. */
  function Copied(site: Site, once: bool, h: Headers): Headers { if once then h else Discarded(site, h) }

  /** The staged informational responses as they go out. */
  function Announced(site: Site, staged: seq<Sent>): seq<Sent> {
    if staged == [] then []
    else Announced(site, staged[..|staged| - 1]) + [Sent(staged[|staged| - 1].status, Discarded(site, staged[|staged| - 1].header))]
  }

  lemma {:induction false} AnnouncedFit(site: Site, staged: seq<Sent>)
    ensures forall s <- Announced(site, staged) :: Outward(site, s.header)
  {
    if staged != [] {
      AnnouncedFit(site, staged[..|staged| - 1]);
      DiscardedIsScrubbed(site, staged[|staged| - 1].header);
    }
  }

  /** Every staged informational response goes out, in order, under its own status. */
  lemma {:induction false} AnnouncedInOrder(site: Site, staged: seq<Sent>, i: nat)
    requires i < |staged|
    ensures |Announced(site, staged)| == |staged|
    ensures Announced(site, staged)[i] == Sent(staged[i].status, Discarded(site, staged[i].header))
  {
    if i < |staged| - 1 {
      AnnouncedInOrder(site, staged[..|staged| - 1], i);
    } else if |staged| > 1 {
      AnnouncedInOrder(site, staged[..|staged| - 1], 0);
    }
  }

  const MAX_INFORMATIONAL := 16

  class Interceptor {
    const site: Site
    const wire: Wire
    const body: Body
    const extended: bool  // the request is an extended CONNECT
    var header: Headers
    var informational: seq<Sent>
    var once: bool
    var wroteHeader: bool
    var status: int
    var writeErr: bool
    var finalReserved: bool
    var terminal: bool
    ghost var told: seq<Byte>  // the body bytes the handler was told are written

    /** Before an upgrade nothing is on the wire and the body holds what the handler wrote. */
    ghost predicate Valid()
      reads this, wire, body, body.budget
    {
      && body.Sharing() && !body.validated && once == terminal
      && (forall s <- informational :: Informational(s.status)) && |informational| <= MAX_INFORMATIONAL
      && (if wroteHeader then !Informational(status) else body.accepted == [])
      && (if terminal then body.accepted == []
          else wire.sent == [] && wire.Open() && (!writeErr ==> body.accepted == told))
    }

    /** Everything on the wire is fit, and so are headers an upgrade left pending: the next
        write or the end of the request sends them. */
    ghost predicate Clean() reads this, wire { wire.AllFit(site) && (terminal && wire.Open() ==> Outward(site, wire.header)) }

    ghost function Others(): int reads this, body, body.budget { body.Others() }

    constructor (site: Site, wire: Wire, body: Body, extended: bool)
      requires wire.sent == [] && wire.Open() && body.Sharing() && body.accepted == [] && !body.validated
      ensures this.site == site && this.wire == wire && this.body == body && this.extended == extended
      ensures Valid() && header == wire.header && !terminal && !writeErr && !finalReserved && !wroteHeader && informational == []
    {
      this.site, this.wire, this.body, this.extended := site, wire, body, extended;
      header, informational, once, wroteHeader, status, writeErr := wire.header, [], false, false, 0, false;
      finalReserved, terminal, told := false, false, [];
    }

    // ---- ordinary responses ---------------------------------------------------------------

    /** The first final status wins; informational ones are kept with a copy of the headers. */
    method WriteHeader(code: int, bytes: nat)
      requires Valid() && 100 <= code <= 999
      modifies this`informational, this`writeErr, this`wroteHeader, this`status, body, body.budget
      ensures Valid() && Others() == old(Others())
      ensures wroteHeader == (old(wroteHeader) || !Informational(code)) && status == if old(wroteHeader) || Informational(code) then old(status) else code
      ensures body.accepted == old(body.accepted)
      ensures old(wroteHeader) || !Informational(code) ==> unchanged(`informational, `writeErr)
      ensures !old(wroteHeader) && Informational(code) ==>
                var room := old(|informational| < MAX_INFORMATIONAL && body.metadata + bytes <= METADATA_LIMIT && body.budget.used + bytes <= body.budget.limit);
                && informational == old(informational) + (if room then [Sent(code, header)] else [])
                && writeErr == (old(writeErr) || !room)
    {
      if wroteHeader { return; }
      if Informational(code) {
        if |informational| >= MAX_INFORMATIONAL {
          writeErr := true;
          return;
        }
        var ok := body.ReserveMetadata(bytes);
        if !ok {
          writeErr := true;
          return;
        }
        informational := informational + [Sent(code, header)];
        return;
      }
      wroteHeader, status := true, code;
    }

    method Write(p: seq<Byte>, disk: Disk) returns (n: nat, failed: bool)
      requires Valid()
      modifies this`informational, this`writeErr, this`wroteHeader, this`status, this`told, wire`sent, wire`written, body, body.budget
      ensures Valid() && Others() == old(Others()) && n <= |p|
      ensures (Clean() <==> old(Clean())) && (terminal ==> !wire.Open())
      ensures !terminal ==> told == old(told) + p[..n] && unchanged(wire)
      ensures !terminal ==> wroteHeader && (if Bodiless(status) then n == 0 && failed else (n < |p| ==> failed) && (failed ==> writeErr))
      ensures old(writeErr) ==> writeErr
    {
      if terminal {
        wire.Commit();
        n := Least(disk.takes, |p|);
        return n, n < |p|;
      }
      if !wroteHeader { WriteHeader(200, 0); }
      if Bodiless(status) { return 0, true; }
      n, failed := body.Write(p, disk);
      told := told + p[..n];
      if failed { writeErr := true; }
    }

    ghost predicate Fits(bytes: nat)
      reads this, body, body.budget
    {
      finalReserved || (body.metadata + bytes <= METADATA_LIMIT && body.budget.used + bytes <= body.budget.limit)
    }

    method ReserveFinal(bytes: nat) returns (ok: bool)
      requires Valid()
      modifies this`finalReserved, body, body.budget
      ensures Valid() && Others() == old(Others()) && finalReserved == (old(finalReserved) || ok)
      ensures (ok <==> old(Fits(bytes))) && unchanged(body`accepted, body`file, body`size, body`validated)
    {
      if finalReserved { return true; }
      ok := body.ReserveMetadata(bytes);
      finalReserved := ok;
    }

    // ---- upgrades ----------------------------------------------------------------------------

    /** Discards the backend's controls and cookies, the first time only. */
    method Discard()
      modifies this`header, this`once
      ensures once && header == Copied(site, old(once), old(header))
    {
      if once { return; }
      once := true;
      var h := Del(Del(Del(Del(Del(header, SET_COOKIE), site.identity), site.rotate), site.revoke), site.labels);
      h := StripTrailers(site, h);
      assert h.fields == Discarded(site, header).fields;
      header := h;
    }

    method SendInformational(s: Sent)
      requires Informational(s.status)
      modifies wire`header, wire`sent, wire`written
      ensures wire.written == old(wire.written)
      ensures wire.sent == if old(wire.Open()) then old(wire.sent) + [Sent(s.status, Discarded(site, s.header))] else old(wire.sent)
    {
      wire.header := Scrub(site, s.header);
      wire.WriteHeader(s.status);
    }

    /** The loop that sends the staged informational responses, scrubbed. */
    method CommitInformational()
      requires forall s <- informational :: Informational(s.status)
      modifies wire`header, wire`sent, wire`written
      ensures wire.written == old(wire.written)
      ensures wire.sent == if old(wire.Open()) then old(wire.sent) + Announced(site, informational) else old(wire.sent)
      ensures wire.AllFit(site) <==> old(wire.AllFit(site))
    {
      for i := 0 to |informational|
        invariant wire.written == old(wire.written)
        invariant wire.sent == if old(wire.Open()) then old(wire.sent) + Announced(site, informational[..i]) else old(wire.sent)
      {
        assert informational[..i + 1][..i] == informational[..i];
        SendInformational(informational[i]);
      }
      assert informational[..|informational|] == informational;
      AnnouncedFit(site, informational);
    }

    method ReleaseTerminalStaging()
      requires body.Sharing()
      modifies this`informational, this`header, body, body.budget
      ensures body.Sharing() && Others() == old(Others()) && body.accepted == [] && !body.validated && body.reserved == 0
      ensures informational == [] && header == BARE
    {
      body.ReleaseAll();
      informational, header := [], BARE;
    }

    /** Puts the staged headers on the wire. */
    method Announce()
      requires forall s <- informational :: Informational(s.status)
      modifies wire`header, wire`sent, wire`written
      ensures wire.header == header && wire.written == (old(wire.written) || (wroteHeader && !wire.taken && !Informational(status)))
      ensures wire.AllFit(site) <==> old(wire.AllFit(site)) && (old(wire.Open()) && wroteHeader ==> Outward(site, header))
      ensures old(wire.Open()) ==>
                wire.sent == old(wire.sent) + Announced(site, informational) + if wroteHeader then [Sent(status, header)] else []
    {
      CommitInformational();
      wire.header := header;
      if wroteHeader { wire.WriteHeader(status); }
    }

    /** What an upgrade puts on the wire: the headers as the first copy leaves them. */
    method SendUpgrade()
      requires (forall s <- informational :: Informational(s.status)) && once == terminal
      modifies this`header, this`once, this`terminal, wire`header, wire`sent, wire`written
      ensures once && terminal && wire.header == Copied(site, old(terminal), old(header))
      ensures wire.written == (old(wire.written) || (wroteHeader && !wire.taken && !Informational(status)))
      ensures wire.AllFit(site) <==> old(wire.AllFit(site)) && (old(wire.Open()) && wroteHeader ==> Outward(site, wire.header))
      ensures old(informational == [] && wire.Open()) ==>
                wire.sent == old(wire.sent) + if wroteHeader then [Sent(status, wire.header)] else []
    {
      Discard();
      terminal := true;
      Announce();
    }

    method CommitUpgrade()
      requires Valid()
      modifies this`header, this`informational, this`once, this`terminal, wire`header, wire`sent, wire`written, body, body.budget
      ensures Valid() && Others() == old(Others()) && terminal && informational == [] && header == BARE && body.reserved == 0
      ensures wire.header == Copied(site, old(terminal), old(header)) && (!old(terminal) ==> Outward(site, wire.header))
      ensures wire.written == (old(wire.written) || (wroteHeader && !wire.taken && !Informational(status)))
      ensures wire.AllFit(site) <==> old(wire.AllFit(site)) && (old(wire.Open()) && wroteHeader ==> Outward(site, wire.header))
      ensures old(informational == [] && wire.Open()) ==>
                wire.sent == old(wire.sent) + if wroteHeader then [Sent(status, wire.header)] else []
    {
      DiscardedIsScrubbed(site, header);
      SendUpgrade();
      ReleaseTerminalStaging();
    }

    method FlushError(bytes: nat, works: bool) returns (failed: bool)
      requires Valid()
      modifies this, wire, body, body.budget
      ensures Valid() && Others() == old(Others()) && (old(writeErr) ==> writeErr)
      ensures (Clean() <==> old(Clean())) && (!extended ==> failed && unchanged(this) && unchanged(wire))
      ensures terminal == (old(terminal) || (extended && old(!writeErr && Fits(bytes) && body.size == 0)))
      ensures (terminal && extended ==> !wire.Open()) && (!old(terminal) && terminal ==> wire.written && body.reserved == 0)
      ensures !old(terminal) && terminal && old(informational == []) ==> wire.sent == [Sent(status, Discarded(site, old(header)))]
    {
      if !extended { return true; }
      if terminal {
        wire.Commit();
        return !works;
      }
      if writeErr { return true; }
      var ok := ReserveFinal(bytes);
      if !ok {
        writeErr := true;
        return true;
      }
      if body.size != 0 { return true; }
      if !wroteHeader { WriteHeader(200, 0); }
      CommitUpgrade();
      return !works;
    }

    ghost predicate Hijackable(bytes: nat)
      reads this, wire, body, body.budget
    {
      wire.hijackable && !writeErr && Fits(bytes) && body.size == 0
    }

    /** Repeating a hijack after a failed one, with no final header out yet, is the only way
        past the scrubbing: the headers set in between go out as they are, at once if a
        status was written and with the next write or the end of the request otherwise,
        unless the connection is handed over first. */
    method Hijack(bytes: nat, works: bool) returns (failed: bool)
      requires Valid()
      modifies this, wire, body, body.budget
      ensures Valid() && Others() == old(Others()) && (old(writeErr) ==> writeErr)
      ensures wroteHeader == old(wroteHeader) && status == old(status) && told == old(told)
      ensures Clean() <==>
              if old(Hijackable(bytes) && terminal && wire.Open())
              then old(wire.AllFit(site)) && (wroteHeader || !works ==> old(Outward(site, header)))
              else old(Clean())
      ensures !old(Hijackable(bytes)) ==> failed && terminal == old(terminal) && unchanged(wire)
      ensures old(Hijackable(bytes)) ==>
                && terminal && finalReserved && !writeErr && informational == [] && (failed <==> !works || old(wire.taken))
                && wire.header == Copied(site, old(terminal), old(header))
                && wire.taken == (old(wire.taken) || works) && (!wroteHeader ==> wire.written == old(wire.written))
                && (old(informational == [] && wire.Open()) ==>
                      wire.sent == old(wire.sent) + if wroteHeader then [Sent(status, wire.header)] else [])
    {
      if !wire.hijackable { return true; }
      if writeErr { return true; }
      var ok := ReserveFinal(bytes);
      if !ok {
        writeErr := true;
        return true;
      }
      if body.size != 0 { return true; }
      CommitUpgrade();
      failed := !works || wire.taken;
      if !failed { wire.taken := true; }
    }
  }
}

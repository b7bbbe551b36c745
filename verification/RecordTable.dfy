/**
 The IPAM system's record table as a value: records behind opaque references, and the client's map
 from name to reference.  The lemmas say what one change of the table is in terms of names.
 */
module RecordTable {
  import opened Types
  import opened Reconcile

  type Ref = nat

  datatype Record = Record(name: Host, data: Rec)

  type Table = map<Ref, Record>

  /** dns is the table read by name: every name has one record.  refs leads from a name to its own record
      only, but it may lack live names, as after a restart, and keep names that are gone. */
  ghost predicate Mirrors(table: Table, refs: map<Host, Ref>, dns: map<Host, Rec>) {
    && (forall r :: r in table ==> Named(table, refs, dns, r))
    && (forall r, r' :: r in table && r' in table && table[r].name == table[r'].name ==> r == r')
    && (forall n :: n in dns ==> HasRecord(table, n))
  }

  ghost predicate Named(table: Table, refs: map<Host, Ref>, dns: map<Host, Rec>, r: Ref)
    requires r in table
  {
    var rec := table[r];
    rec.name in dns && dns[rec.name] == rec.data && (rec.name in refs ==> refs[rec.name] == r)
  }

  ghost predicate HasRecord(table: Table, name: Host) {
    exists r :: r in table && table[r].name == name
  }

  ghost function RefOf(table: Table, name: Host): (r: Ref)
    requires HasRecord(table, name)
    ensures r in table && table[r].name == name
  {
    var r :| r in table && table[r].name == name; r
  }

  /** The live names refs does not lead to. */
  function Unreferenced(refs: map<Host, Ref>, dns: map<Host, Rec>): set<Host> {
    set n | n in dns && n !in refs
  }

  /** No name has both an A and a CNAME record: section 3.6.2 of RFC 1034. */
  ghost predicate Exclusive(table: Table) {
    forall r, r' :: r in table && r' in table && table[r].name == table[r'].name ==>
      (table[r].data.ARec? <==> table[r'].data.ARec?)
  }

  lemma MirrorsExclusive(table: Table, refs: map<Host, Ref>, dns: map<Host, Rec>)
    requires Mirrors(table, refs, dns)
    ensures Exclusive(table)
  {
  }

  lemma NamedAt(table: Table, refs: map<Host, Ref>, dns: map<Host, Rec>, name: Host)
    requires Mirrors(table, refs, dns) && name in dns && name in refs
    ensures refs[name] in table && table[refs[name]] == Record(name, dns[name])
  {
    assert Named(table, refs, dns, RefOf(table, name));
  }

  lemma CreateMirrors(table: Table, refs: map<Host, Ref>, dns: map<Host, Rec>, ref: Ref, name: Host, data: Rec)
    requires Mirrors(table, refs, dns) && ref !in table && name !in dns
    ensures Mirrors(table[ref := Record(name, data)], refs[name := ref], dns[name := data])
    ensures Unreferenced(refs[name := ref], dns[name := data]) == Unreferenced(refs, dns)
  {
    var table', refs', dns' := table[ref := Record(name, data)], refs[name := ref], dns[name := data];
    forall r | r in table' ensures Named(table', refs', dns', r) && (r != ref ==> table'[r].name != name) {
      if r != ref { assert Named(table, refs, dns, r); }
    }
    forall n | n in dns' ensures HasRecord(table', n) {
      if n == name { assert table'[ref].name == n; } else { assert table'[RefOf(table, n)].name == n; }
    }
  }

  lemma DeleteMirrors(table: Table, refs: map<Host, Ref>, dns: map<Host, Rec>, name: Host)
    requires Mirrors(table, refs, dns) && name in dns
    ensures HasRecord(table, name) && Mirrors(table - {RefOf(table, name)}, refs - {name}, dns - {name})
  {
    var gone := RefOf(table, name);
    var table', refs', dns' := table - {gone}, refs - {name}, dns - {name};
    forall r | r in table' ensures Named(table', refs', dns', r) {
      assert Named(table, refs, dns, r);
      assert table[gone].name == name;
    }
    forall n | n in dns' ensures HasRecord(table', n) {
      assert RefOf(table, n) in table' && table'[RefOf(table, n)].name == n;
    }
  }

  /** The record of name is updated in place or under a new reference, perhaps under another name that
      has no record; the entry of the old name goes stale. */
  lemma UpdateMirrors(table: Table, refs: map<Host, Ref>, dns: map<Host, Rec>, name: Host, newRef: Ref, newName: Host,
      data: Rec)
    requires Mirrors(table, refs, dns) && name in dns && name in refs && (newName == name || newName !in dns)
    requires newRef == refs[name] || newRef !in table
    ensures Mirrors((table - {refs[name]})[newRef := Record(newName, data)], refs[newName := newRef],
      (dns - {name})[newName := data])
    ensures Unreferenced(refs[newName := newRef], (dns - {name})[newName := data]) == Unreferenced(refs, dns)
  {
    hide Mirrors;
    NamedAt(table, refs, dns, name);
    DeleteMirrors(table, refs, dns, name);
    OneRecord(table, refs, dns, name, refs[name]);
    StaleMirrors(table - {refs[name]}, refs, dns - {name}, name);
    CreateMirrors(table - {refs[name]}, refs, dns - {name}, newRef, newName, data);
  }

  lemma OneRecord(table: Table, refs: map<Host, Ref>, dns: map<Host, Rec>, name: Host, r: Ref)
    requires Mirrors(table, refs, dns) && r in table && table[r].name == name
    ensures HasRecord(table, name) && RefOf(table, name) == r
  {
  }

  /** An entry for a name without a record does no harm. */
  lemma StaleMirrors(table: Table, refs: map<Host, Ref>, dns: map<Host, Rec>, name: Host)
    requires Mirrors(table, refs - {name}, dns) && name !in dns
    ensures Mirrors(table, refs, dns)
  {
    forall r | r in table ensures Named(table, refs, dns, r) {
      assert Named(table, refs - {name}, dns, r);
    }
  }

  /** The records getARecord and getCNAMERecord find for a name. */
  function MatchingA(table: Table, name: Host, ip: Addr, netview: string): set<Ref> {
    set r | r in table && table[r] == Record(name, ARec(ip, netview))
  }

  function MatchingC(table: Table, name: Host, netview: string): set<Ref> {
    set r | r in table && table[r].name == name && table[r].data.CRec? && table[r].data.netview == netview
  }

  /** At most one record matches a name. */
  lemma UniqueMatch(table: Table, refs: map<Host, Ref>, dns: map<Host, Rec>, name: Host, ip: Addr, netview: string)
    requires Mirrors(table, refs, dns)
    ensures name in dns ==> HasRecord(table, name)
    ensures MatchingA(table, name, ip, netview) == if RefusesA(dns, name, ip, netview) then {RefOf(table, name)} else {}
    ensures MatchingC(table, name, netview) == if HasCname(dns, name, netview) then {RefOf(table, name)} else {}
  {
    forall r | r in table && table[r].name == name
      ensures name in dns && r == RefOf(table, name) && dns[name] == table[r].data
    {
      assert Named(table, refs, dns, r);
    }
  }

  /** Deleting the matching records of a name, if the network is the expected one. */
  lemma DeletedMirrors(table: Table, refs: map<Host, Ref>, dns: map<Host, Rec>, homes: Homes, name: Host, ip: Addr,
      net: Net)
    requires Mirrors(table, refs, dns)
    ensures var gone := if CidrOf(homes, net.netview, ip) == net.cidr then MatchingA(table, name, ip, net.netview)
      else {};
      var dns' := DeletedA(dns, homes, name, ip, net);
      var refs' := if gone == {} then refs else refs - {name};
      Mirrors(table - gone, refs', dns') && Unreferenced(refs', dns') == Unreferenced(refs, dns) * dns'.Keys
    ensures var gone := if CidrOf(homes, net.netview, ip) == net.cidr then MatchingC(table, name, net.netview) else {};
      var dns' := DeletedC(dns, homes, name, ip, net);
      var refs' := if gone == {} then refs else refs - {name};
      Mirrors(table - gone, refs', dns') && Unreferenced(refs', dns') == Unreferenced(refs, dns) * dns'.Keys
  {
    hide Mirrors;
    UniqueMatch(table, refs, dns, name, ip, net.netview);
    assert table - {} == table;
    if name in dns {
      DeleteMirrors(table, refs, dns, name);
    }
  }

  /** One record more. */
  ghost predicate Gains(table: Table, table': Table, name: Host, data: Rec) {
    exists ref: Ref :: ref !in table && table' == table[ref := Record(name, data)]
  }

  /** The name has a record of the other type. */
  ghost predicate Clashes(table: Table, name: Host, data: Rec) {
    exists r :: r in table && table[r].name == name && table[r].data.ARec? != data.ARec?
  }

  /** A record more leaves every name with one type if and only if it clashes with none. */
  lemma ClashIff(table: Table, table': Table, name: Host, data: Rec)
    requires Gains(table, table', name, data)
    ensures Exclusive(table) ==> (Exclusive(table') <==> !Clashes(table, name, data))
  {
    var ref: Ref :| ref !in table && table' == table[ref := Record(name, data)];
    assert table'[ref] == Record(name, data);
    forall r | r in table ensures r in table' && table'[r] == table[r] {
    }
  }

  /** One record more, under a fresh reference that refs learns. */
  ghost predicate Inserted(table: Table, refs: map<Host, Ref>, table': Table, refs': map<Host, Ref>, name: Host,
      data: Rec) {
    exists ref: Ref :: ref !in table && table' == table[ref := Record(name, data)] && refs' == refs[name := ref]
  }

  lemma ExclusiveSubset(table: Table, gone: set<Ref>)
    requires Exclusive(table)
    ensures Exclusive(table - gone)
  {
  }

  // ---------- promotion ----------

  /** What a promotion relies on: delHost owns the A record and the available hosts are CNAMEs of the
      same address's network. */
  ghost predicate Promotable(dns: map<Host, Rec>, homes: Homes, avail: seq<Host>, del: Host, ip: Addr, net: Net) {
    && avail != [] && Distinct(avail) && del !in avail
    && RefusesA(dns, del, ip, net.netview) && CidrOf(homes, net.netview, ip) == net.cidr
    && forall h :: h in avail ==> HasCname(dns, h, net.netview)
  }

  lemma PromotableHost(dns: map<Host, Rec>, homes: Homes, avail: seq<Host>, del: Host, ip: Addr, net: Net, i: nat)
    requires Promotable(dns, homes, avail, del, ip, net) && i < |avail|
    ensures HasCname(dns, avail[i], net.netview) && avail[i] != del
    ensures RefusesA(dns, del, ip, net.netview) && CidrOf(homes, net.netview, ip) == net.cidr
    ensures avail[i] !in Elements(avail[..i]) && (i > 0 ==> avail[i] != avail[0])
    ensures Elements(avail[..i + 1]) == Elements(avail[..i]) + {avail[i]} && Elements(avail[..0]) == {}
  {
    assert avail[i] in avail;
    assert avail[..i + 1] == avail[..i] + [avail[i]];
  }

  /** How far the promotion's loop gets from place i on: to the first host without a reference. */
  function Reach(avail: seq<Host>, lost: set<Host>, i: nat): (n: nat)
    requires i <= |avail|
    ensures i <= n <= |avail|
    decreases |avail| - i
  {
    if i == |avail| || avail[i] in lost then i else Reach(avail, lost, i + 1)
  }

  lemma PromotedFirst(dns: map<Host, Rec>, first: Host, del: Host, ip: Addr, netview: string)
    requires first in dns && del in dns && first != del
    ensures (dns - {first} - {del})[first := ARec(ip, netview)] == Promoted(dns, {first}, first, del, ip, netview)
  {
  }

  lemma PromotedMore(dns: map<Host, Rec>, done: set<Host>, first: Host, del: Host, ip: Addr, netview: string, h: Host)
    requires h in dns && h != del && h != first && h !in done
    ensures h in Promoted(dns, done, first, del, ip, netview) &&
      Promoted(dns, done, first, del, ip, netview)[h] == dns[h]
    ensures Promoted(dns, done, first, del, ip, netview)[h := CRec(first, netview)] ==
      Promoted(dns, done + {h}, first, del, ip, netview)
  {
  }

  /** What a promotion preserves and what it changes, name by name: newA answers at the same address,
      every other available name leads to newA and so to the same address, delHost is gone, and every
      other name answers as before. */
  lemma PromotionResolves(dns: map<Host, Rec>, homes: Homes, avail: seq<Host>, del: Host, ip: Addr, net: Net)
    requires Promotable(dns, homes, avail, del, ip, net)
    ensures var dns' := Promoted(dns, Elements(avail), avail[0], del, ip, net.netview);
      && dns'.Keys == dns.Keys - {del}
      && avail[0] in dns' && del in dns && dns'[avail[0]] == dns[del]
      && (forall h :: h in avail ==> Resolves(dns', h, ip))
      && (forall h :: h in dns && h != del && h !in avail ==> dns'[h] == dns[h])
  {
    assert avail[0] in avail;
    assert forall h :: h in avail <==> h in Elements(avail);
  }

  /** The name leads to the address, directly or through one CNAME. */
  predicate Resolves(dns: map<Host, Rec>, h: Host, ip: Addr) {
    h in dns && match dns[h]
      case ARec(a, _) => a == ip
      case CRec(c, _) => c in dns && dns[c].ARec? && dns[c].ip == ip
  }
}

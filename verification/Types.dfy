/** Vocabulary shared by the store, the IPAM client, the controller and the orchestration client. */
module Types {
  type Host = string
  type Addr = string

  /** The two DNS record types the controller manages. */
  datatype RecordType = A | CNAME

  /** A network of the IPAM system: a CIDR block inside a network view. */
  datatype Net = Net(netview: string, cidr: string)

  /** What the IPAM system holds under one name. */
  datatype Rec =
    | ARec(ip: Addr, netview: string)
    | CRec(canonical: Host, netview: string)

  /** NoKind is the kind of a zeroed spec. */
  datatype ResourceKind = NoKind | ConfigMap | Ingress

  datatype ResourceKey = ResourceKey(kind: ResourceKind, name: string, namespace: string)

  /** One resource and its hosts; netview and cidr are used when the group is not shared. */
  datatype Spec = Spec(key: ResourceKey, hosts: seq<Host>, netview: string, cidr: string)

  /** Specs filed under one key share an address, unless the key's name is empty. */
  datatype GroupKey = GroupKey(name: string, netview: string, cidr: string) {
    function Network(): Net { Net(netview, cidr) }
  }

  datatype Option<+T> = None | Some(value: T)

  type Groups = map<GroupKey, seq<Spec>>

  /** The elements of a list. */
  function Elements<T>(s: seq<T>): set<T> {
    set x | x in s
  }

  /** No element occurs twice. */
  ghost predicate Distinct<T(!new)>(s: seq<T>) {
    forall i, j :: 0 <= i < j < |s| ==> s[i] != s[j]
  }

  /** The first place of h, or the length of the list. */
  function IndexOf(s: seq<Host>, h: Host): (i: nat)
    ensures i <= |s| && (i < |s| <==> h in s) && (i < |s| ==> s[i] == h && h !in s[..i])
  {
    if s == [] then 0
    else if s[0] == h then 0
    else
      assert forall x :: x in s <==> x == s[0] || x in s[1..];
      var i := IndexOf(s[1..], h);
      assert s[..i + 1] == [s[0]] + s[1..][..i];
      i + 1
  }

  lemma FirstAt(s: seq<Host>, h: Host, i: nat)
    requires i < |s| && s[i] == h && h !in s[..i]
    ensures IndexOf(s, h) == i
  {
  }

  /** The list without the first occurrence of x, everything else in its old order. */
  function Without<T(==)>(s: seq<T>, x: T): seq<T> {
    if s == [] then [] else if s[0] == x then s[1..] else [s[0]] + Without(s[1..], x)
  }

  lemma {:induction false} WithoutDistinct<T(!new)>(s: seq<T>, x: T)
    requires Distinct(s)
    ensures Distinct(Without(s, x))
    ensures Elements(Without(s, x)) == Elements(s) - {x}
  {
    if s == [] {
    } else if s[0] == x {
      assert s == [s[0]] + s[1..];
    } else {
      var rest := Without(s[1..], x);
      WithoutDistinct(s[1..], x);
      assert forall y :: y in s <==> y == s[0] || y in s[1..];
      assert forall y :: y in rest <==> y in Elements(rest);
      assert s[0] !in rest;
      assert Without(s, x) == [s[0]] + rest;
    }
  }

  lemma {:induction false} WithoutAbsent<T>(s: seq<T>, x: T)
    requires x !in s
    ensures Without(s, x) == s
  {
    if s != [] {
      WithoutAbsent(s[1..], x);
    }
  }

  lemma {:induction false} WithoutSnoc<T>(s: seq<T>, y: T, x: T)
    ensures Without(s + [y], x) == if x in s then Without(s, x) + [y] else if x == y then s else s + [y]
  {
    if s == [] {
      assert s + [y] == [y] && [y][1..] == [];
    } else {
      assert (s + [y])[0] == s[0] && (s + [y])[1..] == s[1..] + [y];
      assert s == [s[0]] + s[1..];
      WithoutSnoc(s[1..], y, x);
    }
  }

  lemma NoElements<T(!new)>(s: seq<T>)
    ensures s == [] <==> Elements(s) == {}
  {
    if s != [] { assert s[0] in Elements(s); }
  }

  lemma AppendElements<T(!new)>(s: seq<T>, x: T)
    ensures Elements(s + [x]) == Elements(s) + {x}
    ensures Distinct(s) && x !in Elements(s) ==> Distinct(s + [x])
  {
  }

  /** A list taken apart at its last element. */
  lemma SnocElements<T(!new)>(s: seq<T>)
    requires s != []
    ensures Elements(s) == Elements(s[..|s| - 1]) + {s[|s| - 1]}
    ensures Distinct(s) ==> Distinct(s[..|s| - 1]) && s[|s| - 1] !in Elements(s[..|s| - 1])
  {
    assert s == s[..|s| - 1] + [s[|s| - 1]];
  }
}

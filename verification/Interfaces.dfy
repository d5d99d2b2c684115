/** Interface enumeration of src/net_darwin.c: two separately written walks over the
    list that getifaddrs returns. */
module Interfaces {
  import opened Handles

  /** AF_INET, AF_INET6 and everything else. */
  datatype Family = Inet | Inet6 | Unspecified

  datatype Interface = Interface(name: string, up: bool, loopback: bool, family: Family)

  /** The linked list: a pointer to an entry is the list from that entry on, and the
      null pointer is Nil. */
  datatype List = Nil | Cons(entry: Interface, next: List)

  /** OFC_DARWIN_IGNORE_EN5, OFC_LOOPBACK, OFC_DISCOVER_IPV4, OFC_DISCOVER_IPV6. */
  datatype Options = Options(ignoreEn5: bool, useLoopback: bool, ipv4: bool, ipv6: bool)

  method MatchFamilies(options: Options, i: Interface) returns (ret: bool)
    ensures ret <==> (options.ipv4 && i.family == Inet) || (options.ipv6 && i.family == Inet6)
  {
    ret := false;
    if options.ipv4 {
      if i.family == Inet { ret := true; }
    }
    if options.ipv6 {
      if i.family == Inet6 { ret := true; }
    }
  }

  /** An interface that the enumeration presents. */
  predicate Eligible(o: Options, i: Interface) {
    && !(o.ignoreEn5 && i.name == "en5")
    && (o.useLoopback || !i.loopback)
    && i.up
    && ((o.ipv4 && i.family == Inet) || (o.ipv6 && i.family == Inet6))
  }

  /** All list positions, as the pointers the walk goes through. */
  function Pointers(l: List): seq<List> {
    match l case Nil => [] case Cons(_, next) => [l] + Pointers(next)
  }

  /** Pointers to the eligible interfaces, in list order. */
  function Selected(o: Options, l: List): (s: seq<List>)
    ensures forall p | p in s :: p.Cons? && Eligible(o, p.entry)
  {
    match l
    case Nil => []
    case Cons(i, next) => (if Eligible(o, i) then [l] else []) + Selected(o, next)
  }

  /** ofc_net_interface_count_impl; None is a getifaddrs that fails. */
  method Count(o: Options, ifap: Option<List>) returns (count: nat)
    ensures count == if ifap.Some? then |Selected(o, ifap.value)| else 0
  {
    count := 0;
    if ifap.Some? {
      var p := ifap.value;
      while p.Cons?
        invariant count + |Selected(o, p)| == |Selected(o, ifap.value)|
        decreases p
      {
        var ignore := false;
        if o.ignoreEn5 && p.entry.name == "en5" {
          ignore := true;
        }
        if !ignore {
          var match' := MatchFamilies(o, p.entry);
          if o.useLoopback {
            if p.entry.up && match' {
              count := count + 1;
            }
          } else {
            if !p.entry.loopback && p.entry.up && match' {
              count := count + 1;
            }
          }
        }
        p := p.next;
      }
    }
  }

  /** The search loop of ofc_net_interface_addr_impl: the pointer it stops at. */
  method Search(o: Options, ifap: Option<List>, index: int) returns (found: bool, p: List)
    ensures found <==> ifap.Some? && 0 <= index < |Selected(o, ifap.value)|
    ensures found ==> p == Selected(o, ifap.value)[index]
  {
    found, p := false, Nil;
    if ifap.Some? {
      var count := 0;
      p := ifap.value;
      ghost var all := Selected(o, ifap.value);
      while p.Cons? && !found
        invariant 0 <= count && (0 <= index ==> count <= index)
        invariant |all| == count + |Selected(o, p)|
        invariant 0 <= index < |all| ==> Selected(o, p)[index - count] == all[index]
        invariant found ==> p.Cons? && count == index && Eligible(o, p.entry)
        decreases p, !found
      {
        var ignore := false;
        if o.ignoreEn5 && p.entry.name == "en5" {
          ignore := true;
        }
        if !ignore {
          var match' := MatchFamilies(o, p.entry);
          if o.useLoopback {
            if p.entry.up && match' {
              if count == index {
                found := true;
              } else {
                count := count + 1;
                p := p.next;
              }
            } else {
              p := p.next;
            }
          } else {
            if !p.entry.loopback && p.entry.up && match' {
              if count == index {
                found := true;
              } else {
                count := count + 1;
                p := p.next;
              }
            } else {
              p := p.next;
            }
          }
        } else {
          p := p.next;
        }
      }
    }
  }

  /** A position of the list is selected exactly when its interface is eligible. */
  lemma {:induction false} SelectsExactlyEligible(o: Options, l: List, p: List)
    ensures p in Selected(o, l) <==> p in Pointers(l) && p.Cons? && Eligible(o, p.entry)
  {
    match l
    case Nil =>
    case Cons(_, next) => SelectsExactlyEligible(o, next, p);
  }

  function Length(l: List): nat {
    match l case Nil => 0 case Cons(_, next) => 1 + Length(next)
  }

  lemma {:induction false} SelectedShorter(o: Options, l: List)
    ensures forall p | p in Selected(o, l) :: Length(p) <= Length(l)
  {
    match l
    case Nil =>
    case Cons(_, next) => SelectedShorter(o, next);
  }

  /** Later indices are strictly further down the list, so none repeats. */
  lemma {:induction false} SelectedInOrder(o: Options, l: List, i: nat, j: nat)
    requires i < j < |Selected(o, l)|
    ensures Length(Selected(o, l)[j]) < Length(Selected(o, l)[i])
  {
    match l
    case Cons(entry, next) =>
      SelectedShorter(o, next);
      if !Eligible(o, entry) {
        SelectedInOrder(o, next, i, j);
      } else if i > 0 {
        SelectedInOrder(o, next, i - 1, j - 1);
      } else {
        assert Selected(o, l)[j] == Selected(o, next)[j - 1];
        assert Selected(o, next)[j - 1] in Selected(o, next);
      }
  }

  /** What a caller does with the two: count, then ask for every index. It sees the
      eligible interfaces in list order, each exactly once, and no other index
      finds anything. */
  method Enumerate(o: Options, ifap: Option<List>) returns (interfaces: seq<Interface>)
    ensures ifap.None? ==> interfaces == []
    ensures ifap.Some? ==> interfaces == Filter(o, ifap.value)
    ensures forall i | i in interfaces ::
      && i.up && !(i.loopback && !o.useLoopback) && !(i.name == "en5" && o.ignoreEn5)
      && (i.family == Inet ==> o.ipv4) && (i.family == Inet6 ==> o.ipv6) && i.family != Unspecified
    ensures forall i | ifap.Some? && i in Entries(ifap.value) && i !in interfaces ::
      || !i.up || (i.loopback && !o.useLoopback) || (i.name == "en5" && o.ignoreEn5)
      || (i.family == Inet && !o.ipv4) || (i.family == Inet6 && !o.ipv6) || i.family == Unspecified
  {
    var count := Count(o, ifap);
    interfaces := [];
    for index := 0 to count
      invariant ifap.None? ==> interfaces == []
      invariant ifap.Some? ==> |interfaces| == index
      invariant ifap.Some? ==> forall k | 0 <= k < index :: interfaces[k] == Selected(o, ifap.value)[k].entry
    {
      var found, p := Search(o, ifap, index);
      if found {
        interfaces := interfaces + [p.entry];
      }
    }
    if ifap.Some? {
      FilterIsSelected(o, ifap.value);
      forall i
        ensures i in Filter(o, ifap.value) <==> i in Entries(ifap.value) && Eligible(o, i)
      {
        FilterKeepsEligible(o, ifap.value, i);
      }
    }
  }

  /** The interfaces of the snapshot. */
  function Entries(l: List): seq<Interface> {
    match l case Nil => [] case Cons(i, next) => [i] + Entries(next)
  }

  lemma {:induction false} FilterKeepsEligible(o: Options, l: List, i: Interface)
    ensures i in Filter(o, l) <==> i in Entries(l) && Eligible(o, i)
  {
    match l
    case Nil =>
    case Cons(_, next) => FilterKeepsEligible(o, next, i);
  }

  /** The eligible ones among them. */
  function Filter(o: Options, l: List): seq<Interface> {
    match l
    case Nil => []
    case Cons(i, next) => if Eligible(o, i) then [i] + Filter(o, next) else Filter(o, next)
  }

  lemma {:induction false} FilterIsSelected(o: Options, l: List)
    ensures |Filter(o, l)| == |Selected(o, l)|
    ensures forall k | 0 <= k < |Filter(o, l)| :: Filter(o, l)[k] == Selected(o, l)[k].entry
  {
    match l
    case Nil =>
    case Cons(_, next) => FilterIsSelected(o, next);
  }
}

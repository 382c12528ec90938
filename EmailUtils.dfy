/** Grouping of recipient address strings by the domain of their parsed mailbox
    (`EmailUtils.groupRecipientsByDomain`, and the identical
    `MailDove.groupRecipients`). The RFC 5322 address parser is a parameter. */
module EmailUtils {
  import opened Wrappers

  /** What the address parser's `parseOneAddress` yields for a string it accepts. */
  datatype ParsedAddress = Mailbox(address: string, domain: string) | Group(name: string)

  /** `parsedEmail !== null && parsedEmail.type === "mailbox"` */
  predicate IsMailbox(p: Option<ParsedAddress>)
  {
    p.Some? && p.value.Mailbox?
  }

  predicate AtDomain(p: Option<ParsedAddress>, d: string)
  {
    IsMailbox(p) && p.value.domain == d
  }

  /** The recipients of `rs` whose parse is a mailbox at `d`, unchanged, in input order,
      duplicates included. */
  function Members(rs: seq<string>, parse: string -> Option<ParsedAddress>, d: string): seq<string>
  {
    if rs == [] then []
    else
      var last := rs[|rs| - 1];
      Members(rs[..|rs| - 1], parse, d) + (if AtDomain(parse(last), d) then [last] else [])
  }

  /** The domains of the mailbox recipients of `rs`, each once, in order of first appearance. */
  function Domains(rs: seq<string>, parse: string -> Option<ParsedAddress>): seq<string>
  {
    if rs == [] then []
    else
      var ds := Domains(rs[..|rs| - 1], parse);
      var p := parse(rs[|rs| - 1]);
      if IsMailbox(p) && p.value.domain !in ds then ds + [p.value.domain] else ds
  }

  /** The number of recipients of `rs` whose parse is a mailbox. */
  function MailboxCount(rs: seq<string>, parse: string -> Option<ParsedAddress>): nat
  {
    if rs == [] then 0
    else MailboxCount(rs[..|rs| - 1], parse) + (if IsMailbox(parse(rs[|rs| - 1])) then 1 else 0)
  }

  /** The object `recipientGroups`: its own keys in insertion order, and key to list. */
  datatype Groups = Groups(keys: seq<string>, members: map<string, seq<string>>)

  /** The loop over `recipients` that pushes each mailbox recipient onto the list of
      its domain, creating the list on first use. */
  method GroupRecipientsByDomain(recipients: seq<string>, parse: string -> Option<ParsedAddress>)
    returns (g: Groups)
    ensures g.keys == Domains(recipients, parse)
    ensures forall d :: d in g.members <==> d in g.keys
    ensures forall d :: d in g.members ==> g.members[d] == Members(recipients, parse, d)
    ensures forall d :: d in g.members ==> g.members[d] != []
  {
    var keys: seq<string> := [];
    var members: map<string, seq<string>> := map[];
    var i := 0;
    while i < |recipients|
      invariant 0 <= i <= |recipients|
      invariant keys == Domains(recipients[..i], parse)
      invariant forall d :: d in members <==> d in keys
      invariant forall d :: d in members ==> members[d] == Members(recipients[..i], parse, d)
    {
      var recipient := recipients[i];
      var parsed := parse(recipient);
      assert recipients[..i + 1][..i] == recipients[..i];
      if IsMailbox(parsed) {
        var host := parsed.value.domain;
        if host in members {
          members := members[host := members[host] + [recipient]];
        } else {
          DomainsExactlyNonEmpty(recipients[..i], parse, host);
          keys := keys + [host];
          members := members[host := [recipient]];
        }
      }
      i := i + 1;
    }
    assert recipients[..i] == recipients;
    forall d | d in members ensures members[d] != [] {
      DomainsExactlyNonEmpty(recipients, parse, d);
    }
    g := Groups(keys, members);
  }

  /** A domain is a key exactly when some recipient is a mailbox at it. */
  lemma {:induction false} DomainsExactlyNonEmpty(rs: seq<string>, parse: string -> Option<ParsedAddress>, d: string)
    ensures d in Domains(rs, parse) <==> Members(rs, parse, d) != []
  {
    if rs != [] {
      DomainsExactlyNonEmpty(rs[..|rs| - 1], parse, d);
    }
  }

  /** No domain is a key twice. */
  lemma {:induction false} DomainsDistinct(rs: seq<string>, parse: string -> Option<ParsedAddress>)
    ensures forall i, j :: 0 <= i < j < |Domains(rs, parse)| ==> Domains(rs, parse)[i] != Domains(rs, parse)[j]
  {
    if rs != [] {
      DomainsDistinct(rs[..|rs| - 1], parse);
    }
  }

  /** A recipient lands in the group of `d` exactly when it parses as a mailbox at `d`:
      so in the group of its own domain and no other, and a recipient that does not
      parse, or parses as a group, is in no group. */
  lemma {:induction false} MembersExactly(rs: seq<string>, parse: string -> Option<ParsedAddress>, d: string, r: string)
    ensures r in Members(rs, parse, d) <==> r in rs && AtDomain(parse(r), d)
  {
    if rs != [] {
      var init := rs[..|rs| - 1];
      MembersExactly(init, parse, d, r);
      assert rs == init + [rs[|rs| - 1]];
    }
  }

  /** The group of `d` has one entry per occurrence of a mailbox recipient at `d`. */
  lemma {:induction false} MembersCountOccurrences(rs: seq<string>, parse: string -> Option<ParsedAddress>, d: string, r: string)
    requires AtDomain(parse(r), d)
    ensures multiset(Members(rs, parse, d))[r] == multiset(rs)[r]
  {
    if rs != [] {
      var init := rs[..|rs| - 1];
      MembersCountOccurrences(init, parse, d, r);
      assert rs == init + [rs[|rs| - 1]];
    }
  }

  /** The total size of the groups of the domains `ds`. */
  function GroupSizes(ds: seq<string>, rs: seq<string>, parse: string -> Option<ParsedAddress>): nat
  {
    if ds == [] then 0 else |Members(rs, parse, ds[0])| + GroupSizes(ds[1..], rs, parse)
  }

  /** Adding one recipient `x` changes the size of the group of its domain by one and
      leaves the sizes of the other groups alone. */
  lemma {:induction false} GroupSizesGrow(ds: seq<string>, rs: seq<string>, x: string, parse: string -> Option<ParsedAddress>)
    requires IsMailbox(parse(x))
    requires forall i, j :: 0 <= i < j < |ds| ==> ds[i] != ds[j]
    ensures GroupSizes(ds, rs + [x], parse)
         == GroupSizes(ds, rs, parse) + (if parse(x).value.domain in ds then 1 else 0)
  {
    if ds != [] {
      assert (rs + [x])[..|rs + [x]| - 1] == rs;
      GroupSizesGrow(ds[1..], rs, x, parse);
      assert ds[0] == parse(x).value.domain ==> parse(x).value.domain !in ds[1..];
      assert parse(x).value.domain in ds <==> ds[0] == parse(x).value.domain || parse(x).value.domain in ds[1..];
    }
  }

  lemma {:induction false} GroupSizesSkip(ds: seq<string>, rs: seq<string>, x: string, parse: string -> Option<ParsedAddress>)
    requires !IsMailbox(parse(x))
    ensures GroupSizes(ds, rs + [x], parse) == GroupSizes(ds, rs, parse)
  {
    if ds != [] {
      assert (rs + [x])[..|rs + [x]| - 1] == rs;
      GroupSizesSkip(ds[1..], rs, x, parse);
    }
  }

  lemma {:induction false} GroupSizesAppend(ds: seq<string>, e: string, rs: seq<string>, parse: string -> Option<ParsedAddress>)
    ensures GroupSizes(ds + [e], rs, parse) == GroupSizes(ds, rs, parse) + |Members(rs, parse, e)|
  {
    if ds != [] {
      assert (ds + [e])[1..] == ds[1..] + [e];
      GroupSizesAppend(ds[1..], e, rs, parse);
    }
  }

  /** The group sizes add up to the number of recipients that parse as a mailbox. */
  lemma {:induction false} GroupSizesSum(rs: seq<string>, parse: string -> Option<ParsedAddress>)
    ensures GroupSizes(Domains(rs, parse), rs, parse) == MailboxCount(rs, parse)
  {
    if rs != [] {
      var init, x := rs[..|rs| - 1], rs[|rs| - 1];
      assert rs == init + [x];
      var ds := Domains(init, parse);
      GroupSizesSum(init, parse);
      DomainsDistinct(init, parse);
      if IsMailbox(parse(x)) {
        var e := parse(x).value.domain;
        GroupSizesGrow(ds, init, x, parse);
        if e !in ds {
          DomainsExactlyNonEmpty(init, parse, e);
          GroupSizesAppend(ds, e, rs, parse);
          assert Members(rs, parse, e) == [x];
        }
      } else {
        GroupSizesSkip(ds, init, x, parse);
      }
    }
  }

  // The source keeps the groups in a plain JavaScript object. Reading
  // `recipientGroups[host]` for a host that is not yet an own key falls back to
  // Object.prototype, whose properties below are all truthy and have no `push`.

  const OBJECT_PROTOTYPE_PROPERTIES: set<string> :=
    {"constructor", "__proto__", "hasOwnProperty", "isPrototypeOf", "propertyIsEnumerable",
     "toLocaleString", "toString", "valueOf", "__defineGetter__", "__defineSetter__",
     "__lookupGetter__", "__lookupSetter__"}

  /** The grouping as the source writes it: a domain that names an Object.prototype
      property makes `(recipientGroups[host] || ...)` the inherited value, and calling
      `.push` on it throws a TypeError. */
  function GroupAsWritten(rs: seq<string>, parse: string -> Option<ParsedAddress>): Result<Groups, string>
  {
    if rs == [] then Success(Groups([], map[]))
    else
      var prev := GroupAsWritten(rs[..|rs| - 1], parse);
      var recipient := rs[|rs| - 1];
      var p := parse(recipient);
      if prev.Failure? || !IsMailbox(p) then prev
      else
        var host := p.value.domain;
        var g := prev.value;
        if host in g.members then Success(Groups(g.keys, g.members[host := g.members[host] + [recipient]]))
        else if host in OBJECT_PROTOTYPE_PROPERTIES then Failure("TypeError: push is not a function")
        else Success(Groups(g.keys + [host], g.members[host := [recipient]]))
  }

  predicate HitsPrototype(rs: seq<string>, parse: string -> Option<ParsedAddress>)
  {
    exists i :: 0 <= i < |rs| && IsMailbox(parse(rs[i])) && parse(rs[i]).value.domain in OBJECT_PROTOTYPE_PROPERTIES
  }

  lemma HitsPrototypeLast(rs: seq<string>, parse: string -> Option<ParsedAddress>)
    requires rs != []
    ensures var p := parse(rs[|rs| - 1]);
      HitsPrototype(rs, parse) <==>
        HitsPrototype(rs[..|rs| - 1], parse) || (IsMailbox(p) && p.value.domain in OBJECT_PROTOTYPE_PROPERTIES)
  {
    var init := rs[..|rs| - 1];
    assert forall i :: 0 <= i < |init| ==> init[i] == rs[i];
    if HitsPrototype(rs, parse) {
      var i :| 0 <= i < |rs| && IsMailbox(parse(rs[i])) && parse(rs[i]).value.domain in OBJECT_PROTOTYPE_PROPERTIES;
      if i < |init| {
        assert init[i] == rs[i];
      }
    }
  }

  /** A recorded domain that names a prototype property cannot occur when no earlier
      recipient hit the prototype. */
  lemma NoPrototypeKey(rs: seq<string>, parse: string -> Option<ParsedAddress>, host: string)
    requires !HitsPrototype(rs, parse) && host in OBJECT_PROTOTYPE_PROPERTIES
    ensures host !in Domains(rs, parse)
  {
    DomainsExactlyNonEmpty(rs, parse, host);
    if host in Domains(rs, parse) {
      var r := Members(rs, parse, host)[0];
      MembersExactly(rs, parse, host, r);
      assert false;
    }
  }

  /** As written, the grouping throws exactly when some mailbox domain names an
      Object.prototype property; otherwise it computes the intended groups. */
  lemma {:induction false} GroupAsWrittenAgrees(rs: seq<string>, parse: string -> Option<ParsedAddress>)
    ensures GroupAsWritten(rs, parse).Failure? <==> HitsPrototype(rs, parse)
    ensures GroupAsWritten(rs, parse).Success? ==>
      var g := GroupAsWritten(rs, parse).value;
      && g.keys == Domains(rs, parse)
      && (forall d :: d in g.members <==> d in g.keys)
      && (forall d :: d in g.members ==> g.members[d] == Members(rs, parse, d))
  {
    if rs != [] {
      var init := rs[..|rs| - 1];
      GroupAsWrittenAgrees(init, parse);
      HitsPrototypeLast(rs, parse);
      var p := parse(rs[|rs| - 1]);
      if !HitsPrototype(init, parse) && IsMailbox(p) {
        if p.value.domain in OBJECT_PROTOTYPE_PROPERTIES {
          NoPrototypeKey(init, parse, p.value.domain);
        } else {
          DomainsExactlyNonEmpty(init, parse, p.value.domain);
        }
      }
    }
  }

  /** A single recipient at the domain `constructor` makes the source throw, while it
      makes a one-member group in the intended grouping. */
  lemma PrototypeDomainCounterexample(parse: string -> Option<ParsedAddress>)
    requires parse("user@constructor") == Some(Mailbox("user@constructor", "constructor"))
    ensures GroupAsWritten(["user@constructor"], parse).Failure?
    ensures Domains(["user@constructor"], parse) == ["constructor"]
    ensures Members(["user@constructor"], parse, "constructor") == ["user@constructor"]
  {
    assert ["user@constructor"][..0] == [];
  }
}

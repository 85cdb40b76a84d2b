/**
 * The name lookups of the workflows: `findDroplet`, `findSnapshot` and
 * `findProject` scan one listed page for the first element whose name is
 * the query, and `down` scans the domain's records for the first one whose
 * name plus the domain is the host.
 */
module Lookup {
  import opened Wrappers
  import opened Provider
  import Dns

  function DropletName(d: Droplet): string { d.name }

  function SnapshotName(s: Snapshot): string { s.name }

  function ProjectName(p: Project): string { p.name }

  /** The host name a record stands for under `domain`: its name, a dot and the domain. */
  function RecordHost(domain: string): Record -> string {
    (r: Record) => r.name + "." + domain
  }

  predicate HasNamed<T>(xs: seq<T>, nameOf: T -> string, name: string) {
    exists i :: 0 <= i < |xs| && nameOf(xs[i]) == name
  }

  /** The first element of `xs` whose name is `name`, if any. */
  function FirstNamed<T>(xs: seq<T>, nameOf: T -> string, name: string): Option<T> {
    if xs == [] then None
    else if nameOf(xs[0]) == name then Some(xs[0])
    else FirstNamed(xs[1..], nameOf, name)
  }

  /** `FirstNamed` finds nothing exactly when no element has the name. */
  lemma {:induction false} FirstNamedNone<T>(xs: seq<T>, nameOf: T -> string, name: string)
    ensures FirstNamed(xs, nameOf, name).None? <==> !HasNamed(xs, nameOf, name)
  {
    if xs != [] && nameOf(xs[0]) != name {
      FirstNamedNone(xs[1..], nameOf, name);
      if HasNamed(xs, nameOf, name) {
        var i :| 0 <= i < |xs| && nameOf(xs[i]) == name;
        assert nameOf(xs[1..][i - 1]) == name;
      }
      if HasNamed(xs[1..], nameOf, name) {
        var i :| 0 <= i < |xs[1..]| && nameOf(xs[1..][i]) == name;
        assert nameOf(xs[i + 1]) == name;
      }
    }
  }

  /** `FirstNamed` returns the element at the least index whose name matches. */
  lemma {:induction false} FirstNamedIsFirst<T>(xs: seq<T>, nameOf: T -> string, name: string, i: nat)
    requires i < |xs| && nameOf(xs[i]) == name
    requires forall j :: 0 <= j < i ==> nameOf(xs[j]) != name
    ensures FirstNamed(xs, nameOf, name) == Some(xs[i])
  {
    if i > 0 {
      assert nameOf(xs[0]) != name;
      FirstNamedIsFirst(xs[1..], nameOf, name, i - 1);
    }
  }

  /** The loop of `findDroplet`, `findSnapshot` and `findProject`: stop at the first name match. */
  method Scan<T>(xs: seq<T>, nameOf: T -> string, name: string) returns (target: Option<T>)
    ensures target == FirstNamed(xs, nameOf, name)
  {
    target := None;
    var i := 0;
    while i < |xs|
      invariant 0 <= i <= |xs|
      invariant FirstNamed(xs[i..], nameOf, name) == FirstNamed(xs, nameOf, name)
    {
      if nameOf(xs[i]) == name {
        target := Some(xs[i]);
        break;
      }
      assert xs[i..][1..] == xs[i + 1..];
      i := i + 1;
    }
  }

  /** The ID `down` deletes: that of the first record matching the host, or -1 if none does. */
  function MatchingId(recs: seq<Record>, domain: string, host: string): int {
    match FirstNamed(recs, RecordHost(domain), host)
    case Some(r) => r.id
    case None => -1
  }

  /** The record loop of `down`: `recID` starts at -1 and takes the first match's ID. */
  method FindRecordId(recs: seq<Record>, domain: string, host: string) returns (recId: int)
    ensures recId == MatchingId(recs, domain, host)
  {
    recId := -1;
    var i := 0;
    while i < |recs|
      invariant 0 <= i <= |recs|
      invariant recId == -1
      invariant FirstNamed(recs[i..], RecordHost(domain), host) == FirstNamed(recs, RecordHost(domain), host)
    {
      if recs[i].name + "." + domain == host {
        recId := recs[i].id;
        break;
      }
      assert recs[i..][1..] == recs[i + 1..];
      i := i + 1;
    }
  }

  /** A record `down` would delete has exactly the name `up` gives the host's record. */
  lemma MatchingRecordName(recs: seq<Record>, domain: string, host: string)
    requires FirstNamed(recs, RecordHost(domain), host).Some?
    ensures FirstNamed(recs, RecordHost(domain), host).value.name == Dns.RecordName(host, domain)
  {
    var r := FirstNamed(recs, RecordHost(domain), host).value;
    FirstNamedFound(recs, RecordHost(domain), host);
    Dns.MatchedNameIsRecordName(r.name, domain, host);
  }

  /** What `FirstNamed` returns is an element of the list and has the name. */
  lemma {:induction false} FirstNamedFound<T>(xs: seq<T>, nameOf: T -> string, name: string)
    requires FirstNamed(xs, nameOf, name).Some?
    ensures FirstNamed(xs, nameOf, name).value in xs
    ensures nameOf(FirstNamed(xs, nameOf, name).value) == name
  {
    if nameOf(xs[0]) != name {
      FirstNamedFound(xs[1..], nameOf, name);
    }
  }
}

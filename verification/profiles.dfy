/**
 * Developer profiles and the in-memory profile table keyed by email
 * (src/lib/db.ts). The table behaves like a JavaScript `Map`: lookups by
 * key, upsert on `set`, and enumeration in the order the keys were first
 * inserted. Persistence to browser storage is not modelled (see README).
 */
module Profiles {
  import opened Wrappers
  import opened Seqs

  /** The three experience levels the profile schema admits. */
  datatype ExperienceLevel = Beginner | Intermediate | Advanced

  /** A developer profile; `email` is its key in the table. */
  datatype Profile = Profile(
    email: string,
    skills: seq<string>,
    interests: seq<string>,
    experienceLevel: ExperienceLevel)

  /** The three profiles that `addSampleProfiles` stores. */
  const SampleProfiles: seq<Profile> := [
    Profile("dev1@example.com", ["JavaScript", "React", "TypeScript"],
            ["web development", "UI/UX"], Intermediate),
    Profile("dev2@example.com", ["Python", "Django", "JavaScript"],
            ["backend", "data science"], Beginner),
    Profile("dev3@example.com", ["Go", "Rust", "C++"],
            ["systems", "performance"], Advanced)
  ]

  /** The emails of ps, in order. */
  function Emails(ps: seq<Profile>): (r: seq<string>)
    ensures |r| == |ps| && forall k :: 0 <= k < |ps| ==> r[k] == ps[k].email
  {
    if ps == [] then [] else [ps[0].email] + Emails(ps[1..])
  }

  /** The table after `set(p.email, p)` for each p of ps in turn. */
  function SaveAll(m: map<string, Profile>, ps: seq<Profile>): (r: map<string, Profile>)
    ensures m.Keys <= r.Keys
    ensures ps != [] ==> ps[|ps| - 1].email in r && r[ps[|ps| - 1].email] == ps[|ps| - 1]
  {
    if ps == [] then m
    else
      var last := ps[|ps| - 1];
      assert ps == ps[..|ps| - 1] + [last];
      SaveAll(m, ps[..|ps| - 1])[last.email := last]
  }

  /** The key order after `set(p.email, p)` for each p of ps in turn: a new key goes last. */
  function OrderAfter(order: seq<string>, ps: seq<Profile>): (r: seq<string>)
    ensures order <= r
    ensures forall e :: e in r <==> e in order || e in Emails(ps)
  {
    if ps == [] then order
    else
      var before := OrderAfter(order, ps[..|ps| - 1]);
      var e := ps[|ps| - 1].email;
      assert Emails(ps) == Emails(ps[..|ps| - 1]) + [e];
      if e in before then before else before + [e]
  }

  /** Saving profiles with pairwise different emails stores each of them under its email. */
  lemma {:induction false} SaveAllStores(m: map<string, Profile>, ps: seq<Profile>)
    requires Distinct(Emails(ps))
    ensures forall k :: 0 <= k < |ps| ==> ps[k].email in SaveAll(m, ps) && SaveAll(m, ps)[ps[k].email] == ps[k]
  {
    if ps != [] {
      var n := |ps| - 1;
      var init, last := ps[..n], ps[n];
      EmailsPrefix(ps, n);
      SaveAllStores(m, init);
      forall k | 0 <= k < n
        ensures ps[k].email in SaveAll(m, ps) && SaveAll(m, ps)[ps[k].email] == ps[k]
      {
        assert Emails(ps)[k] != Emails(ps)[n];
        assert init[k] == ps[k];
      }
    }
  }

  /** The emails of a prefix are the prefix of the emails, still pairwise different when those are. */
  lemma EmailsPrefix(ps: seq<Profile>, n: nat)
    requires n <= |ps|
    ensures Emails(ps[..n]) == Emails(ps)[..n]
    ensures Distinct(Emails(ps)) ==> Distinct(Emails(ps[..n]))
  {
  }

  /** Saving profiles leaves every key that none of them uses as it was. */
  lemma {:induction false} SaveAllKeepsOthers(m: map<string, Profile>, ps: seq<Profile>, e: string)
    requires e !in Emails(ps)
    ensures e in SaveAll(m, ps) <==> e in m
    ensures e in m ==> SaveAll(m, ps)[e] == m[e]
  {
    if ps != [] {
      var n := |ps| - 1;
      assert Emails(ps[..n]) == Emails(ps)[..n];
      assert Emails(ps)[n] != e;
      SaveAllKeepsOthers(m, ps[..n], e);
    }
  }

  /** The samples' emails are pairwise different. */
  lemma SampleEmailsDistinct()
    ensures Emails(SampleProfiles) == ["dev1@example.com", "dev2@example.com", "dev3@example.com"]
    ensures Distinct(Emails(SampleProfiles))
  {
    var es := Emails(SampleProfiles);
    assert es[0] == "dev1@example.com" && es[1] == "dev2@example.com" && es[2] == "dev3@example.com";
    assert es == ["dev1@example.com", "dev2@example.com", "dev3@example.com"];
    assert es[0][3] == '1' && es[1][3] == '2' && es[2][3] == '3';
  }

  /** Saving the samples stores each of them and leaves every other key as it was. */
  lemma SamplesSaved(m: map<string, Profile>)
    ensures forall k :: 0 <= k < |SampleProfiles| ==>
              SampleProfiles[k].email in SaveAll(m, SampleProfiles)
              && SaveAll(m, SampleProfiles)[SampleProfiles[k].email] == SampleProfiles[k]
    ensures forall e :: e !in Emails(SampleProfiles) ==>
              (e in SaveAll(m, SampleProfiles) <==> e in m)
              && (e in m ==> SaveAll(m, SampleProfiles)[e] == m[e])
  {
    SampleEmailsDistinct();
    SaveAllStores(m, SampleProfiles);
    forall e | e !in Emails(SampleProfiles)
      ensures (e in SaveAll(m, SampleProfiles) <==> e in m) && (e in m ==> SaveAll(m, SampleProfiles)[e] == m[e])
    {
      SaveAllKeepsOthers(m, SampleProfiles, e);
    }
  }

  /** The stored profiles, read off in key order. */
  function ValuesInOrder(m: map<string, Profile>, keys: seq<string>): (r: seq<Profile>)
    requires forall k :: 0 <= k < |keys| ==> keys[k] in m
    ensures |r| == |keys|
    ensures forall k :: 0 <= k < |keys| ==> r[k] == m[keys[k]]
  {
    if keys == [] then [] else [m[keys[0]]] + ValuesInOrder(m, keys[1..])
  }

  /** Listing a table along a repetition-free list of exactly its keys yields every value once. */
  lemma OrderCoversTable(m: map<string, Profile>, order: seq<string>)
    requires forall e :: e in m <==> e in order
    requires Distinct(order)
    ensures |m| == |order|
    ensures forall e :: e in m ==> m[e] in ValuesInOrder(m, order)
  {
    DistinctCardinality(order);
    assert m.Keys == set x | x in order;
    forall e | e in m ensures m[e] in ValuesInOrder(m, order) {
      var k :| 0 <= k < |order| && order[k] == e;
      assert ValuesInOrder(m, order)[k] == m[e];
    }
  }

  /** The profile table: a map from email to profile and the keys' insertion order. */
  class ProfileDatabase {
    var profiles: map<string, Profile>
    var order: seq<string>

    /** Each profile is stored under its own email; `order` lists every key exactly once. */
    ghost predicate Valid()
      reads this
    {
      && (forall e :: e in profiles ==> profiles[e].email == e)
      && (forall e :: e in profiles <==> e in order)
      && Distinct(order)
    }

    /** A new, empty table (loading from browser storage is not modelled). */
    constructor ()
      ensures Valid()
      ensures profiles == map[] && order == []
    {
      profiles := map[];
      order := [];
    }

    /** `getProfile(email)`: the profile stored under email, if any. */
    function GetProfile(email: string): (r: Option<Profile>)
      reads this
      requires Valid()
      ensures r.Some? <==> email in profiles
      ensures r.Some? ==> r.value == profiles[email] && r.value.email == email
    {
      if email in profiles then Some(profiles[email]) else None
    }

    /** `getAllProfiles()`: every stored profile once, in key insertion order. */
    function GetAllProfiles(): (r: seq<Profile>)
      reads this
      requires Valid()
      ensures |r| == |profiles| == |order|
      ensures forall k :: 0 <= k < |r| ==> r[k] == profiles[order[k]]
      ensures forall e :: e in profiles ==> profiles[e] in r
    {
      OrderCoversTable(profiles, order);
      ValuesInOrder(profiles, order)
    }

    /** `saveProfile(profile)`: insert or replace the entry under profile.email. */
    method SaveProfile(profile: Profile)
      requires Valid()
      modifies this
      ensures Valid()
      ensures profiles == old(profiles)[profile.email := profile]
      ensures order == if profile.email in old(profiles) then old(order) else old(order) + [profile.email]
      ensures GetProfile(profile.email) == Some(profile)
      ensures forall e :: e != profile.email ==> GetProfile(e) == old(GetProfile(e))
      ensures |profiles| == if profile.email in old(profiles) then old(|profiles|) else old(|profiles|) + 1
    {
      if profile.email !in profiles {
        order := order + [profile.email];
      }
      profiles := profiles[profile.email := profile];
    }

    /** `deleteProfile(email)`: remove the entry under email; report whether there was one. */
    method DeleteProfile(email: string) returns (found: bool)
      requires Valid()
      modifies this
      ensures Valid()
      ensures found <==> email in old(profiles)
      ensures profiles == old(profiles) - {email}
      ensures order == Filter(old(order), e => e != email)
      ensures GetProfile(email) == None
      ensures forall e :: e != email ==> GetProfile(e) == old(GetProfile(e))
      ensures |profiles| == if found then old(|profiles|) - 1 else old(|profiles|)
    {
      found := email in profiles;
      var kept := Filter(order, e => e != email);
      FilterKeepsDistinct(order, e => e != email);
      FilterMultiset(order, e => e != email);
      forall e ensures e in kept <==> e in order && e != email {
        assert multiset(kept)[e] == if e != email then multiset(order)[e] else 0;
      }
      order := kept;
      profiles := profiles - {email};
    }

    /** `addSampleProfiles()`: save each of the three sample profiles in turn. */
    method AddSampleProfiles()
      requires Valid()
      modifies this
      ensures Valid()
      ensures profiles == SaveAll(old(profiles), SampleProfiles)
      ensures order == OrderAfter(old(order), SampleProfiles)
      ensures forall k :: 0 <= k < |SampleProfiles| ==>
                GetProfile(SampleProfiles[k].email) == Some(SampleProfiles[k])
      ensures forall e :: e !in Emails(SampleProfiles) ==> GetProfile(e) == old(GetProfile(e))
    {
      SaveEach(SampleProfiles);
      SamplesSaved(old(profiles));
    }

    /** `ps.forEach(p => this.saveProfile(p))`. */
    method SaveEach(ps: seq<Profile>)
      requires Valid()
      modifies this
      ensures Valid()
      ensures profiles == SaveAll(old(profiles), ps)
      ensures order == OrderAfter(old(order), ps)
    {
      var i := 0;
      while i < |ps|
        invariant 0 <= i <= |ps|
        invariant Valid()
        invariant profiles == SaveAll(old(profiles), ps[..i])
        invariant order == OrderAfter(old(order), ps[..i])
      {
        assert ps[..i + 1][..i] == ps[..i];
        SaveProfile(ps[i]);
        i := i + 1;
      }
      assert ps[..i] == ps;
    }
  }
}

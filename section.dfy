/**
  The dashboard's greeting banner: the signed-in account's display name,
  falling back to the local part of its email and then to "User", greeted
  according to the hour of the day.
 */
module Section {
  import opened Common

  /** The fields of the signed-in account that the banner reads; the email may be absent. */
  datatype Account = Account(name: string, email: Option<string>)

  const FALLBACK_NAME := "User"

  /** `s.split('@')[0]`: the text before the first '@', or all of `s` when it has none. */
  function BeforeAt(s: string): (r: string)
    ensures |r| <= |s| && r == s[..|r|]
    ensures forall i :: 0 <= i < |r| ==> r[i] != '@'
    ensures |r| < |s| ==> s[|r|] == '@'
  {
    if s == [] || s[0] == '@' then "" else [s[0]] + BeforeAt(s[1..])
  }

  /** The local part of `local + "@" + domain` is `local`, whatever the domain holds. */
  lemma {:induction false} BeforeAtOfAddress(local: string, domain: string)
    requires forall i :: 0 <= i < |local| ==> local[i] != '@'
    ensures BeforeAt(local + "@" + domain) == local
  {
    var s := local + "@" + domain;
    assert s[|local|] == '@';
    assert s[..|local|] == local;
  }

  /**
    The name the effect stores: `user.name`, else the email's text before its
    first '@', else "User"; a rejected account fetch (`None`) gives "User".
   */
  function DisplayName(fetched: Option<Account>): (r: string)
    ensures r != ""
    ensures fetched.None? ==> r == FALLBACK_NAME
    ensures fetched.Some? && fetched.value.name != "" ==> r == fetched.value.name
    ensures fetched.Some? && fetched.value.name == "" && fetched.value.email.None? ==> r == FALLBACK_NAME
    ensures fetched.Some? && fetched.value.name == "" && fetched.value.email.Some? ==>
              var local := BeforeAt(fetched.value.email.value);
              r == if local == "" then FALLBACK_NAME else local
  {
    if fetched.None? then FALLBACK_NAME
    else if fetched.value.name != "" then fetched.value.name
    else if fetched.value.email.Some? && BeforeAt(fetched.value.email.value) != "" then BeforeAt(fetched.value.email.value)
    else FALLBACK_NAME
  }

  /** An unnamed account with an address `local@domain` is called by its non-empty local part. */
  lemma EmailLocalPartUsed(local: string, domain: string)
    requires local != "" && forall i :: 0 <= i < |local| ==> local[i] != '@'
    ensures DisplayName(Some(Account("", Some(local + "@" + domain)))) == local
  {
    BeforeAtOfAddress(local, domain);
  }

  /** An unnamed account whose address has no '@' is called by the whole address. */
  lemma AddressWithoutAtUsedWhole(email: string)
    requires email != "" && forall i :: 0 <= i < |email| ==> email[i] != '@'
    ensures DisplayName(Some(Account("", Some(email)))) == email
  {
    var local := BeforeAt(email);
    assert |local| == |email|;
    assert local == email[..|email|] == email;
  }

  /** An unnamed account whose email starts with '@' has an empty local part and is called "User". */
  lemma EmptyLocalPartFallsBack(domain: string)
    ensures DisplayName(Some(Account("", Some("@" + domain)))) == FALLBACK_NAME
  {
    assert ("@" + domain)[0] == '@';
  }

  /** `getGreeting`'s period of the day for an hour of the local clock. */
  function Period(hour: int): (r: string)
    requires 0 <= hour < 24
    ensures r == "Morning" <==> hour < 12
    ensures r == "Afternoon" <==> 12 <= hour < 18
    ensures r == "Evening" <==> 18 <= hour
  {
    if hour < 12 then "Morning" else if hour < 18 then "Afternoon" else "Evening"
  }

  /** `getGreeting`: "Good <period>, <name>!". */
  function Greeting(hour: int, name: string): string
    requires 0 <= hour < 24
  {
    "Good " + Period(hour) + ", " + name + "!"
  }

  /** A greeting names its period and its name: both can be read back from it. */
  lemma {:induction false} GreetingDetermines(h1: int, n1: string, h2: int, n2: string)
    requires 0 <= h1 < 24 && 0 <= h2 < 24
    requires Greeting(h1, n1) == Greeting(h2, n2)
    ensures Period(h1) == Period(h2) && n1 == n2
  {
    var g := Greeting(h1, n1);
    var p1, p2 := Period(h1), Period(h2);
    assert g[5] == p1[0] && g[5] == p2[0];
    assert p1 == p2;
    var k := 5 + |p1| + 2;
    assert g == ("Good " + p1 + ", ") + n1 + "!" && g == ("Good " + p1 + ", ") + n2 + "!";
    assert |n1| == |n2|;
    assert n1 == g[k..k + |n1|] == n2;
  }

  /** A greeting starts with "Good ", ends with the name followed by "!". */
  lemma GreetingFrame(hour: int, name: string)
    requires 0 <= hour < 24
    ensures var g := Greeting(hour, name);
            && StartsWith(g, "Good ") && g[|g| - 1] == '!'
            && g[|g| - 1 - |name|..|g| - 1] == name
  {
    var g := Greeting(hour, name);
    assert g[..5] == "Good ";
  }
}

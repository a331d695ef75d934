// What a listing is known by: the one route its fingerprint is taken from, and the keys any of its
// routes is matched by.

module IdentityKeys {
  import opened Wrappers
  import opened BusinessIdentity
  import A = Attribution

  // ---- the fingerprint's route ----

  // The first telephone reported has these digits.
  ghost predicate Dials(contacts: seq<A.Contact>, digits: string) {
    exists i :: && 0 <= i < |contacts| && contacts[i].kind == A.BusinessTelephone && A.Digits(contacts[i].value) == digits
                && forall j :: 0 <= j < i ==> contacts[j].kind != A.BusinessTelephone
  }

  ghost predicate HasDigits(contacts: seq<A.Contact>) {
    exists digits: string :: digits != "" && Dials(contacts, digits)
  }

  lemma {:induction false} FirstTelephoneMeans(contacts: seq<A.Contact>)
    ensures FirstTelephone(contacts) != "" ==> Dials(contacts, FirstTelephone(contacts))
    ensures forall digits: string :: Dials(contacts, digits) ==> FirstTelephone(contacts) == digits
  {
    hide A.Digits;
    if contacts != [] && !contacts[0].kind.BusinessTelephone? {
      FirstTelephoneMeans(contacts[1..]);
      forall digits: string
        ensures Dials(contacts, digits) <==> Dials(contacts[1..], digits)
      {
        if i :| && 0 <= i < |contacts| && contacts[i].kind == A.BusinessTelephone && A.Digits(contacts[i].value) == digits
                && forall j :: 0 <= j < i ==> contacts[j].kind != A.BusinessTelephone {
          assert contacts[1..][i - 1] == contacts[i];
          assert forall j :: 0 <= j < i - 1 ==> contacts[1..][j] == contacts[j + 1];
        }
        if i :| && 0 <= i < |contacts[1..]| && contacts[1..][i].kind == A.BusinessTelephone
                && A.Digits(contacts[1..][i].value) == digits
                && forall j :: 0 <= j < i ==> contacts[1..][j].kind != A.BusinessTelephone {
          assert contacts[i + 1] == contacts[1..][i];
          assert forall j :: 0 < j < i + 1 ==> contacts[j] == contacts[1..][j - 1];
        }
      }
    } else if contacts != [] {
      assert Dials(contacts, A.Digits(contacts[0].value));
    }
  }

  // The host of the website claimed, if it has one.
  ghost predicate Hosted(w: Words, b: A.Business, host: string) {
    b.websiteUrl.Some? && b.websiteUrl.value != "" && w.host(b.websiteUrl.value) == Some(host) && host != ""
  }

  // A contact other than a telephone has this comparable form.
  ghost predicate Reached(w: Words, contacts: seq<A.Contact>, kind: A.ContactType, value: string) {
    value != "" && exists c :: c in contacts && c.kind == kind != A.BusinessTelephone && w.comparable(kind, c.value) == value
  }

  lemma {:induction false} RoutesMean(w: Words, contacts: seq<A.Contact>, kind: A.ContactType, value: string)
    ensures Route(kind, value) in Routes(w, contacts) <==> Reached(w, contacts, kind, value)
  {
    if contacts != [] {
      var before, last := contacts[..|contacts| - 1], contacts[|contacts| - 1];
      RoutesMean(w, before, kind, value);
      assert forall c :: c in contacts <==> c in before || c == last;
    }
  }

  // The first telephone, if it has a digit; else the website's host; else the route that collates
  // first; and the name in its place only when there is none of these.
  lemma KeyMeans(w: Words, b: A.Business, name: string, locality: string)
    requires Collates(w)
    ensures var key := KeyOf(w, b, name, locality);
            match key
            case Telephone(digits) => digits != "" && Dials(b.contacts, digits)
            case Website(host) => !HasDigits(b.contacts) && Hosted(w, b, host)
            case Route(kind, value) =>
              && !HasDigits(b.contacts) && (forall host :: !Hosted(w, b, host)) && Reached(w, b.contacts, kind, value)
              && forall k, v :: Reached(w, b.contacts, k, v) ==> !w.before(RouteText(Route(k, v)), RouteText(key))
            case Name(n, place) =>
              && !HasDigits(b.contacts) && (forall host :: !Hosted(w, b, host))
              && (forall k, v :: !Reached(w, b.contacts, k, v)) && n == w.normal(name) && place == locality
  {
    hide FirstTelephone, Routes, Least, Dials, Reached, RouteText;
    FirstTelephoneMeans(b.contacts);
    forall k, v
      ensures Route(k, v) in Routes(w, b.contacts) <==> Reached(w, b.contacts, k, v)
    {
      RoutesMean(w, b.contacts, k, v);
    }
    var routes := Routes(w, b.contacts);
    if routes != [] {
      LeastIsFirst(w, routes);
      var first := Least(w, routes);
      assert first == Route(first.kind, first.value);
      assert routes[0] == Route(routes[0].kind, routes[0].value) && routes[0] in routes;
    }
    if HasDigits(b.contacts) {
      var digits: string :| digits != "" && Dials(b.contacts, digits);
    }
  }

  // ---- the keys routes are matched by ----

  // The last nine digits of a telephone, or an address without blanks around it in lower case.
  ghost predicate SameSubscriber(a: string, b: string) {
    && |A.Digits(a)| >= 9 && |A.Digits(b)| >= 9
    && A.Digits(a)[|A.Digits(a)| - 9..] == A.Digits(b)[|A.Digits(b)| - 9..]
  }

  ghost predicate SameAddress(w: Words, a: string, b: string) {
    w.lower(A.Trim(a)) == w.lower(A.Trim(b)) != ""
  }

  lemma TagsDiffer(a: string, b: string)
    ensures "tel:" + a != "mail:" + b && "tel:" + a != "web:" + b && "mail:" + a != "web:" + b
    ensures "tel:" + a == "tel:" + b || "mail:" + a == "mail:" + b || "web:" + a == "web:" + b ==> a == b
  {
    assert ("tel:" + a)[0] == 't' && ("mail:" + b)[0] == 'm' && ("web:" + b)[0] == 'w' && ("mail:" + a)[0] == 'm';
    assert ("tel:" + a)[4..] == a && ("tel:" + b)[4..] == b && ("mail:" + a)[5..] == a && ("mail:" + b)[5..] == b;
    assert ("web:" + a)[4..] == a && ("web:" + b)[4..] == b;
  }

  // Two contacts share a key exactly when both are telephones of one subscriber or both one email
  // address; a form or a profile has none.
  lemma ContactKeysMean(w: Words, a: A.Contact, b: A.Contact)
    ensures RouteMatchKey(w, a).Some? && RouteMatchKey(w, a) == RouteMatchKey(w, b)
            <==> || (a.kind == A.BusinessTelephone && b.kind == A.BusinessTelephone && SameSubscriber(a.value, b.value))
                 || (a.kind == A.GenericEmail && b.kind == A.GenericEmail && SameAddress(w, a.value, b.value))
  {
    hide A.Digits, A.Trim;
    var s, t := KeyText(w, a), KeyText(w, b);
    TagsDiffer(s, t);
    TagsDiffer(t, s);
  }

  ghost function KeyText(w: Words, c: A.Contact): string {
    if c.kind == A.BusinessTelephone && |A.Digits(c.value)| >= 9 then A.Digits(c.value)[|A.Digits(c.value)| - 9..]
    else w.lower(A.Trim(c.value))
  }

  // Two presences share a key exactly when both are websites of one host, and never with a contact.
  lemma SiteKeysMean(w: Words, p: A.Presence, q: A.Presence, c: A.Contact)
    ensures SiteMatchKey(w, p).Some? && SiteMatchKey(w, p) == SiteMatchKey(w, q)
            <==> p.kind == "Website" && q.kind == "Website" && w.siteHost(p.url).Some?
                 && w.siteHost(p.url) == w.siteHost(q.url) && w.siteHost(p.url).value != ""
    ensures SiteMatchKey(w, p).Some? ==> SiteMatchKey(w, p) != RouteMatchKey(w, c)
  {
    hide A.Digits, A.Trim;
    var s, t := w.siteHost(p.url), w.siteHost(q.url);
    TagsDiffer(KeyText(w, c), if s.Some? then s.value else "");
    if s.Some? && t.Some? { TagsDiffer(s.value, t.value); }
  }
}

// Evaluating who a listing is: its verdict, its fingerprint, and the keys it is found by.

module BusinessIdentity {
  import opened Wrappers
  import A = Attribution
  import I = Identity

  const SUBSCRIBER_DIGITS: nat := 9

  // Text services: normalised words, the words of a URL's host, the host a site is matched by, the
  // comparable form of a route that is not a telephone, letter case, and the collation of routes.
  datatype Words = Words(
    normal: string -> string,
    host: string -> Option<string>,
    siteHost: string -> Option<string>,
    comparable: (A.ContactType, string) -> string,
    lower: string -> string,
    upper: string -> string,
    before: (string, string) -> bool)

  // ---- telephones and match keys ----

  function SubscriberNumber(value: string): Option<string> {
    var digits := A.Digits(value);
    if |digits| < SUBSCRIBER_DIGITS then None else Some(digits[|digits| - SUBSCRIBER_DIGITS..])
  }

  function RouteMatchKey(w: Words, c: A.Contact): Option<string> {
    match c.kind
    case BusinessTelephone =>
      (match SubscriberNumber(c.value)
       case None => None
       case Some(subscriber) => Some("tel:" + subscriber))
    case GenericEmail =>
      var address := w.lower(A.Trim(c.value));
      if address == [] then None else Some("mail:" + address)
    case _ => None
  }

  function SiteMatchKey(w: Words, p: A.Presence): Option<string> {
    if p.kind != "Website" || w.siteHost(p.url).None? || w.siteHost(p.url).value == [] then None
    else Some("web:" + w.siteHost(p.url).value)
  }

  // ---- the fingerprint ----

  function TypeName(kind: A.ContactType): string {
    match kind
    case GenericEmail => "GenericEmail"
    case BusinessTelephone => "BusinessTelephone"
    case ContactForm => "ContactForm"
    case SocialMessaging => "SocialMessaging"
  }

  // What a fingerprint is made of.
  datatype Key =
    | Telephone(digits: string)
    | Website(host: string)
    | Route(kind: A.ContactType, value: string)
    | Name(name: string, locality: string)

  function RouteText(key: Key): string
    requires key.Route?
  {
    TypeName(key.kind) + ":" + key.value
  }

  function FirstTelephone(contacts: seq<A.Contact>): string {
    if contacts == [] then []
    else if contacts[0].kind.BusinessTelephone? then A.Digits(contacts[0].value)
    else FirstTelephone(contacts[1..])
  }

  // The other routes in comparable form, those with nothing comparable left out.
  function Routes(w: Words, contacts: seq<A.Contact>): (routes: seq<Key>)
    ensures forall route :: route in routes ==> route.Route?
  {
    if contacts == [] then []
    else
      var last := contacts[|contacts| - 1];
      Routes(w, contacts[..|contacts| - 1])
      + if last.kind.BusinessTelephone? || w.comparable(last.kind, last.value) == [] then []
        else [Route(last.kind, w.comparable(last.kind, last.value))]
  }

  // The first in collation, an earlier one before an equal one.
  function Least(w: Words, routes: seq<Key>): (least: Key)
    requires routes != [] && forall route :: route in routes ==> route.Route?
    ensures least in routes
  {
    if |routes| == 1 then routes[0]
    else
      var earlier, last := Least(w, routes[..|routes| - 1]), routes[|routes| - 1];
      if w.before(RouteText(last), RouteText(earlier)) then last else earlier
  }

  function KeyOf(w: Words, b: A.Business, name: string, locality: string): Key {
    var host := if b.websiteUrl.Some? && b.websiteUrl.value != [] then w.host(b.websiteUrl.value) else None;
    if FirstTelephone(b.contacts) != [] then Telephone(FirstTelephone(b.contacts))
    else if host.Some? && host.value != [] then Website(host.value)
    else if Routes(w, b.contacts) != [] then Least(w, Routes(w, b.contacts))
    else Name(w.normal(name), locality)
  }

  function Printed(key: Key, country: string): string {
    (match key
     case Telephone(digits) => "tel:" + digits
     case Website(host) => "web:" + host
     case Route(_, _) => "contact:" + RouteText(key)
     case Name(name, locality) => "name:" + (name + "|" + locality))
    + "|" + country
  }

  // ---- the evaluation ----

  function Stored(w: Words, contacts: seq<A.Contact>): (routes: seq<I.Route>)
    ensures |routes| == |contacts|
    ensures forall i :: 0 <= i < |contacts| ==>
              routes[i] == I.Route(TypeName(contacts[i].kind) + ":" + contacts[i].value, RouteMatchKey(w, contacts[i]))
  {
    if contacts == [] then []
    else
      var last := contacts[|contacts| - 1];
      Stored(w, contacts[..|contacts| - 1]) + [I.Route(TypeName(last.kind) + ":" + last.value, RouteMatchKey(w, last))]
  }

  function StoredPresences(w: Words, presences: seq<A.Presence>): (routes: seq<I.Route>)
    ensures |routes| == |presences|
    ensures forall i :: 0 <= i < |presences| ==> routes[i] == I.Route(presences[i].url, SiteMatchKey(w, presences[i]))
  {
    if presences == [] then []
    else
      var last := presences[|presences| - 1];
      StoredPresences(w, presences[..|presences| - 1]) + [I.Route(last.url, SiteMatchKey(w, last))]
  }

  function CanonicalName(b: A.Business): string {
    var trimmed := A.Trim(b.name);
    if |trimmed| <= 300 then trimmed else trimmed[..300]
  }

  function Evaluate(w: Words, b: A.Business, country: string): I.Evaluation {
    var fingerprint := Printed(KeyOf(w, b, CanonicalName(b), w.normal(b.profile.locality)), w.upper(country));
    var presences := StoredPresences(w, b.presences);
    var contacts := Stored(w, b.contacts);
    if b.profile.decisionScope == "Ambiguous" then I.Evaluation(I.Ambiguous, None, presences, [])
    else if b.profile.centrallyControlled || b.profile.decisionScope == "Central" then
      I.Evaluation(I.Excluded, Some(fingerprint), presences, contacts)
    else if b.profile.onlineOnly then I.Evaluation(I.Excluded, Some(fingerprint), presences, contacts)
    else if |contacts| == 0 then I.Evaluation(I.Excluded, Some(fingerprint), presences, contacts)
    else I.Evaluation(I.Eligible, Some(fingerprint), presences, contacts)
  }

  // Only an unambiguous, locally decided business with a premises and a contact route is eligible,
  // and only an ambiguous one has no fingerprint.
  lemma VerdictMeans(w: Words, b: A.Business, country: string)
    ensures var e := Evaluate(w, b, country);
            && (e.status == I.Eligible <==>
                  b.profile.decisionScope != "Ambiguous" && b.profile.decisionScope != "Central"
                  && !b.profile.centrallyControlled && !b.profile.onlineOnly && b.contacts != [])
            && (e.fingerprint.None? <==> e.status == I.Ambiguous)
            && (e.status == I.Eligible ==> e.contacts != [])
            // An ambiguous listing stores its presences and no contact, any other stores both.
            && |e.presences| == |b.presences| && |e.contacts| == (if e.status == I.Ambiguous then 0 else |b.contacts|)
            && (forall i :: 0 <= i < |e.presences| ==>
                  e.presences[i] == I.Route(b.presences[i].url, SiteMatchKey(w, b.presences[i])))
            && (forall i :: 0 <= i < |e.contacts| ==> e.contacts[i].matchKey == RouteMatchKey(w, b.contacts[i]))
  {
    assert |Stored(w, b.contacts)| == |b.contacts|;
  }

  // Committed for a business, an evaluated listing is one the run acts on exactly when it is eligible in
  // that sense, its fingerprint is not suppressed, and no other listing of the run is that business.
  lemma LiveExactlyWhen(w: Words, b: A.Business, country: string, db: I.IdentityTables, x: I.Commitment, c: I.CanonicalId)
    requires x.evaluation == Evaluate(w, b, country)
    ensures I.LiveListing(I.Committed(db, x, Some(c)), (x.runId, x.business), x.runId, c)
            <==> && b.profile.decisionScope != "Ambiguous" && b.profile.decisionScope != "Central"
                 && !b.profile.centrallyControlled && !b.profile.onlineOnly && b.contacts != []
                 && x.evaluation.fingerprint.Some? && x.evaluation.fingerprint.value !in db.suppressed
                 && !I.ListedElsewhere(db, x.runId, x.business, c)
  {
    hide Evaluate, I.Committed, I.LiveListing, I.ListedElsewhere;
    VerdictMeans(w, b, country);
    I.WhenLive(db, x, Some(c), c);
  }

  // ---- one fingerprint, one key ----

  ghost predicate Unbarred(s: string) { '|' !in s }

  // Everything but a route's own text is free of the separator.
  ghost predicate Separable(key: Key, country: string) {
    && Unbarred(country)
    && match key
       case Telephone(digits) => Unbarred(digits)
       case Website(host) => Unbarred(host)
       case Route(_, _) => true
       case Name(name, locality) => Unbarred(name) && Unbarred(locality)
  }

  // A text is split by its last separator in one way.
  lemma SplitAtLastBar(a: string, b: string, c: string, d: string)
    requires Unbarred(b) && Unbarred(d) && a + "|" + b == c + "|" + d
    ensures a == c && b == d
  {
    var s := a + "|" + b;
    assert s[|a|] == '|' && s[|c|] == '|';
    assert forall i :: |a| < i < |s| ==> s[i] == b[i - |a| - 1];
    assert forall i :: |c| < i < |s| ==> s[i] == d[i - |c| - 1];
    assert |a| == |c|;
    assert s[..|a|] == a && s[..|c|] == c;
    assert s[|a| + 1..] == b && s[|c| + 1..] == d;
  }

  lemma SplitAtFirstColon(a: string, b: string, c: string, d: string)
    requires ':' !in a && ':' !in c && a + ":" + b == c + ":" + d
    ensures a == c && b == d
  {
    var s := a + ":" + b;
    assert s[|a|] == ':' && s[|c|] == ':';
    assert forall i :: 0 <= i < |a| ==> s[i] == a[i];
    assert forall i :: 0 <= i < |c| ==> s[i] == c[i];
    assert |a| == |c|;
    assert s[..|a|] == a && s[..|c|] == c;
    assert s[|a| + 1..] == b && s[|c| + 1..] == d;
  }

  lemma TypeNamesDiffer(j: A.ContactType, k: A.ContactType)
    ensures ':' !in TypeName(j) && (TypeName(j) == TypeName(k) ==> j == k)
  {
    assert |TypeName(j)|
        == match j
           case GenericEmail => 12
           case BusinessTelephone => 17
           case ContactForm => 11
           case SocialMessaging => 15;
  }

  // The prefix tells the kinds of key apart, whatever follows it.
  lemma KindsDiffer(j: Key, k: Key, a: string, b: string)
    requires Tagged(j, a) == Tagged(k, b)
    ensures a == b
    ensures j.Telephone? == k.Telephone? && j.Website? == k.Website? && j.Route? == k.Route? && j.Name? == k.Name?
  {
    var s := Tagged(j, a);
    assert s[0] == (match j case Telephone(_) => 't' case Website(_) => 'w' case Route(_, _) => 'c' case Name(_, _) => 'n');
    assert s[0] == (match k case Telephone(_) => 't' case Website(_) => 'w' case Route(_, _) => 'c' case Name(_, _) => 'n');
    assert s[|Tag(j)|..] == a && s[|Tag(k)|..] == b;
  }

  function Tag(key: Key): string {
    match key
    case Telephone(_) => "tel:"
    case Website(_) => "web:"
    case Route(_, _) => "contact:"
    case Name(_, _) => "name:"
  }

  function Tagged(key: Key, body: string): string { Tag(key) + body }

  function Body(key: Key): string {
    match key
    case Telephone(digits) => digits
    case Website(host) => host
    case Route(_, _) => RouteText(key)
    case Name(name, locality) => name + "|" + locality
  }

  lemma PrintedIs(key: Key, country: string)
    ensures Printed(key, country) == Tagged(key, Body(key)) + "|" + country
  {
  }

  // Two businesses share a fingerprint exactly when they have the same key in the same country.
  lemma FingerprintsAreKeys(j: Key, a: string, k: Key, b: string)
    requires Separable(j, a) && Separable(k, b)
    ensures Printed(j, a) == Printed(k, b) <==> j == k && a == b
  {
    hide Printed, Tagged, Body, TypeName;
    if Printed(j, a) == Printed(k, b) {
      PrintedIs(j, a);
      PrintedIs(k, b);
      SplitAtLastBar(Tagged(j, Body(j)), a, Tagged(k, Body(k)), b);
      KindsDiffer(j, k, Body(j), Body(k));
      BodiesAreKeys(j, k);
    }
  }

  lemma BodiesAreKeys(j: Key, k: Key)
    requires Body(j) == Body(k) && Separable(j, "") && Separable(k, "")
    requires j.Telephone? == k.Telephone? && j.Website? == k.Website? && j.Route? == k.Route? && j.Name? == k.Name?
    ensures j == k
  {
    hide TypeName, Unbarred;
    match j {
      case Name(name, locality) => SplitAtLastBar(name, locality, k.name, k.locality);
      case Route(kind, value) =>
        TypeNamesDiffer(kind, k.kind);
        TypeNamesDiffer(k.kind, kind);
        SplitAtFirstColon(TypeName(kind), value, TypeName(k.kind), k.value);
      case _ =>
    }
  }

  lemma {:induction false} DigitsAreDigits(s: string)
    ensures forall i :: 0 <= i < |A.Digits(s)| ==> A.IsDigit(A.Digits(s)[i])
  {
    if s != [] { DigitsAreDigits(s[1..]); }
  }

  lemma {:induction false} FirstTelephoneIsUnbarred(contacts: seq<A.Contact>)
    ensures Unbarred(FirstTelephone(contacts))
  {
    if contacts != [] {
      DigitsAreDigits(contacts[0].value);
      FirstTelephoneIsUnbarred(contacts[1..]);
    }
  }

  // Normalised words, and hosts made of them, hold no separator.
  ghost predicate WordsAreUnbarred(w: Words) {
    && (forall s :: Unbarred(w.normal(s)))
    && (forall s :: w.host(s).Some? ==> Unbarred(w.host(s).value))
  }

  // Two listings get one fingerprint exactly when they come to one key in one country; in particular
  // same-named neighbours with different telephones never do.
  lemma SameFingerprintSameKey(w: Words, a: A.Business, b: A.Business, country: string, land: string)
    requires WordsAreUnbarred(w) && Unbarred(w.upper(country)) && Unbarred(w.upper(land))
    requires a.profile.decisionScope != "Ambiguous" && b.profile.decisionScope != "Ambiguous"
    ensures Evaluate(w, a, country).fingerprint == Evaluate(w, b, land).fingerprint
            <==> KeyOf(w, a, CanonicalName(a), w.normal(a.profile.locality))
                 == KeyOf(w, b, CanonicalName(b), w.normal(b.profile.locality))
                 && w.upper(country) == w.upper(land)
    ensures FirstTelephone(a.contacts) != FirstTelephone(b.contacts) ==>
              Evaluate(w, a, country).fingerprint != Evaluate(w, b, land).fingerprint
  {
    hide Printed, CanonicalName, Unbarred;
    FirstTelephoneIsUnbarred(a.contacts);
    FirstTelephoneIsUnbarred(b.contacts);
    FingerprintsAreKeys(KeyOf(w, a, CanonicalName(a), w.normal(a.profile.locality)), w.upper(country),
                        KeyOf(w, b, CanonicalName(b), w.normal(b.profile.locality)), w.upper(land));
  }

  // ---- however a route is written ----

  // Telephones are matched exactly by their last nine digits, country code or not.
  lemma TelephonesMatch(w: Words, a: A.Contact, b: A.Contact)
    requires a.kind.BusinessTelephone? && b.kind.BusinessTelephone?
    ensures RouteMatchKey(w, a) == RouteMatchKey(w, b) <==> SubscriberNumber(a.value) == SubscriberNumber(b.value)
  {
    hide SubscriberNumber;
    var s, t := SubscriberNumber(a.value), SubscriberNumber(b.value);
    if s.Some? && t.Some? && "tel:" + s.value == "tel:" + t.value {
      assert ("tel:" + s.value)[4..] == s.value && ("tel:" + t.value)[4..] == t.value;
    }
  }

  ghost predicate Collates(w: Words) {
    && (forall s, t :: w.before(s, t) ==> !w.before(t, s))
    && (forall s, t :: s != t ==> w.before(s, t) || w.before(t, s))
    && (forall s, t, u :: w.before(s, t) && w.before(t, u) ==> w.before(s, u))
  }

  lemma {:induction false} LeastIsFirst(w: Words, routes: seq<Key>)
    requires Collates(w) && routes != [] && forall route :: route in routes ==> route.Route?
    ensures forall route :: route in routes ==> !w.before(RouteText(route), RouteText(Least(w, routes)))
  {
    hide RouteText;
    if |routes| > 1 {
      var before, last := routes[..|routes| - 1], routes[|routes| - 1];
      LeastIsFirst(w, before);
      assert routes == before + [last];
    }
  }

  // The route a fingerprint is taken from does not depend on the order they were reported in.
  lemma RouteOrderIsIrrelevant(w: Words, a: seq<Key>, b: seq<Key>)
    requires Collates(w) && a != [] && b != []
    requires forall route :: route in a <==> route in b
    requires forall route :: route in a ==> route.Route?
    ensures Least(w, a) == Least(w, b)
  {
    hide TypeName;
    LeastIsFirst(w, a);
    LeastIsFirst(w, b);
    var x, y := Least(w, a), Least(w, b);
    assert RouteText(x) == RouteText(y);
    BodiesAreKeys(x, y);
  }

  // ---- found by any shared route ----

  // After one listing is committed for a business, a listing of any run that carries one of its
  // contact keys never becomes a new business.
  lemma SharedRouteIsKnown(db: I.IdentityTables, x: I.Commitment, c: I.CanonicalId, y: I.Commitment, d: I.CanonicalId)
    requires x.evaluation.fingerprint.Some? && y.evaluation.fingerprint.Some?
    requires forall i, j :: 0 <= i < |x.evaluation.contacts| && 0 <= j < |x.evaluation.contacts|
                            && x.evaluation.contacts[i].value == x.evaluation.contacts[j].value
                            ==> x.evaluation.contacts[i].matchKey == x.evaluation.contacts[j].matchKey
    requires I.Keyed(x.evaluation.contacts, y.evaluation.contacts)
    ensures I.Resolves(I.Committed(db, x, Some(c)), y, Some(d)) ==> d in I.Committed(db, x, Some(c)).canonicals
  {
    hide I.FirstByValue, I.Decision, I.ExcludedListings;
    var after := I.Committed(db, x, Some(c));
    var routes := x.evaluation.contacts;
    var keys := y.evaluation.contacts + y.evaluation.presences;
    var i, j :| 0 <= i < |routes| && 0 <= j < |y.evaluation.contacts|
                && y.evaluation.contacts[j].matchKey.Some? && routes[i].matchKey == y.evaluation.contacts[j].matchKey;
    I.KeptRoutesAreDistinct(routes);
    I.KeptRoutesAreFirst(routes);
    assert I.HasValue(routes, routes[i].value);
    var kept := I.FirstByValue(routes);
    var k :| 0 <= k < |kept| && kept[k].value == routes[i].value;
    assert kept[k] in kept && I.FirstOf(routes, kept[k]);
    assert keys[j] == y.evaluation.contacts[j];
    assert I.Keyed(kept, keys);
    assert after.contacts[(x.runId, x.business)] == I.Stored(Some(c), kept);
    assert I.SharesRoute(after, c, y.evaluation);
  }

  // So a business whose telephone is written another way, or with a country code, is still itself.
  lemma SameTelephoneSameBusiness(w: Words, db: I.IdentityTables, x: I.Commitment, c: I.CanonicalId, y: I.Commitment,
                                  d: I.CanonicalId, a: A.Business, b: A.Business, country: string, i: nat, j: nat)
    requires a.profile.decisionScope != "Ambiguous" && b.profile.decisionScope != "Ambiguous"
    requires i < |a.contacts| && a.contacts[i].kind.BusinessTelephone?
    requires j < |b.contacts| && b.contacts[j].kind.BusinessTelephone?
    requires SubscriberNumber(a.contacts[i].value).Some?
    requires SubscriberNumber(a.contacts[i].value) == SubscriberNumber(b.contacts[j].value)
    ensures x.evaluation == Evaluate(w, a, country) && y.evaluation == Evaluate(w, b, country)
            && I.Resolves(I.Committed(db, x, Some(c)), y, Some(d))
            ==> d in I.Committed(db, x, Some(c)).canonicals
  {
    hide I.Committed, I.Resolves, Evaluate, SubscriberNumber, RouteMatchKey;
    EvaluationKeepsContacts(w, a, country);
    EvaluationKeepsContacts(w, b, country);
    TelephonesMatch(w, a.contacts[i], b.contacts[j]);
    StoredByText(w, a.contacts);
    MatchKeyOfTelephone(w, a.contacts[i]);
    if x.evaluation == Evaluate(w, a, country) && y.evaluation == Evaluate(w, b, country) {
      assert x.evaluation.contacts[i].matchKey == y.evaluation.contacts[j].matchKey;
      SharedRouteIsKnown(db, x, c, y, d);
    }
  }

  lemma EvaluationKeepsContacts(w: Words, b: A.Business, country: string)
    requires b.profile.decisionScope != "Ambiguous"
    ensures Evaluate(w, b, country).fingerprint.Some? && Evaluate(w, b, country).contacts == Stored(w, b.contacts)
  {
    hide Printed, KeyOf, CanonicalName, StoredPresences;
  }

  lemma MatchKeyOfTelephone(w: Words, c: A.Contact)
    requires c.kind.BusinessTelephone?
    ensures RouteMatchKey(w, c).Some? <==> SubscriberNumber(c.value).Some?
  {
  }

  lemma StoredByText(w: Words, contacts: seq<A.Contact>)
    ensures var routes := Stored(w, contacts);
            forall i, j :: 0 <= i < |routes| && 0 <= j < |routes| && routes[i].value == routes[j].value ==>
              routes[i].matchKey == routes[j].matchKey
  {
    hide Stored, TypeName;
    var routes := Stored(w, contacts);
    forall i, j | 0 <= i < |routes| && 0 <= j < |routes| && routes[i].value == routes[j].value
      ensures routes[i].matchKey == routes[j].matchKey
    {
      TypeNamesDiffer(contacts[i].kind, contacts[j].kind);
      TypeNamesDiffer(contacts[j].kind, contacts[i].kind);
      SplitAtFirstColon(TypeName(contacts[i].kind), contacts[i].value, TypeName(contacts[j].kind), contacts[j].value);
    }
  }
}

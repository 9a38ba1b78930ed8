/** internal/gateway/auth.go and the allowlist comparison of internal/gateway/registry.go. */
module Auth {

  import opened Api
  import opened Text

  datatype AuthError = Unauthenticated | Unavailable

  datatype AuthResult = Principal(name: string) | Failed(error: AuthError)

  /** What TokenReview answered. */
  datatype Review = Review(authenticated: bool, error: string, audiences: seq<string>, uid: string, username: string)

  predicate Alphanumeric(c: char) {
    'a' <= c <= 'z' || '0' <= c <= '9'
  }

  /** [a-z0-9]([-a-z0-9]*[a-z0-9])? */
  predicate LabelShaped(s: string) {
    && s != "" && Alphanumeric(s[0]) && Alphanumeric(s[|s| - 1])
    && forall c :: c in s ==> Alphanumeric(c) || c == '-'
  }

  /** IsDNS1123Label of k8s.io/apimachinery. */
  predicate DnsLabel(s: string) {
    LabelShaped(s) && |s| <= 63
  }

  /** IsDNS1123Subdomain of k8s.io/apimachinery. */
  predicate DnsSubdomain(s: string) {
    |s| <= 253 && forall i :: 0 <= i < |Split(s, '.')| ==> LabelShaped(Split(s, '.')[i])
  }

  predicate ValidServiceAccount(username: string) {
    var parts := Split(username, ':');
    |parts| == 4 && parts[0] == "system" && parts[1] == "serviceaccount" && DnsLabel(parts[2]) && DnsSubdomain(parts[3])
  }

  /** The username of a service account. */
  function Username(account: ServiceAccountReference): string {
    PREFIX + account.namespace + [':'] + account.name
  }

  const PREFIX := "system:serviceaccount:"

  predicate Allows(accounts: seq<ServiceAccountReference>, principal: string) {
    exists i :: 0 <= i < |accounts| && principal == Username(accounts[i])
  }

  /** credential is the one bearer token of the request, if there is exactly one; slot says whether one of the
      review slots was free; review is None when the API call failed. */
  function Authenticate(audience: string, credential: Option<string>, slot: bool, review: Option<Review>): (r: AuthResult)
    ensures r.Principal? ==> ValidServiceAccount(r.name) && review.Some? && r.name == review.value.username
    ensures r.Principal? <==>
      && credential.Some? && slot && review.Some?
      && review.value.authenticated && review.value.error == "" && audience in review.value.audiences
      && review.value.uid != "" && ValidServiceAccount(review.value.username)
    ensures r == Failed(Unavailable) <==> credential.Some? && !(slot && review.Some?)
  {
    if credential.None? then Failed(Unauthenticated)
    else if !slot || review.None? then Failed(Unavailable)
    else
      var status := review.value;
      if !status.authenticated || status.error != "" || audience !in status.audiences || status.uid == ""
         || !ValidServiceAccount(status.username)
      then Failed(Unauthenticated)
      else Principal(status.username)
  }

  /** The service account that a valid username names. */
  function Account(username: string): ServiceAccountReference
    requires ValidServiceAccount(username)
  {
    var parts := Split(username, ':');
    ServiceAccountReference(parts[2], parts[3])
  }

  lemma {:induction false} FourFields(a: string, b: string, c: string, d: string, sep: char)
    requires FreeOf(a, sep) && FreeOf(b, sep)
    ensures Split(a + [sep] + (b + [sep] + (c + [sep] + d)), sep) == [a, b] + (Split(c, sep) + Split(d, sep))
  {
    hide Split, FreeOf;
    var cd := c + [sep] + d;
    var bcd := b + [sep] + cd;
    SplitConcat(c, d, sep);
    SplitHead(b, cd, sep);
    SplitHead(a, bcd, sep);
    assert [a] + ([b] + Split(cd, sep)) == [a, b] + Split(cd, sep);
  }

  lemma {:induction false} PrefixFields()
    ensures PREFIX == "system" + [':'] + ("serviceaccount" + [':'])
    ensures FreeOf("system", ':') && FreeOf("serviceaccount", ':')
  {
  }

  lemma {:induction false} PrefixedFields(account: ServiceAccountReference, system: string, kind: string)
    requires PREFIX == system + [':'] + (kind + [':']) && FreeOf(system, ':') && FreeOf(kind, ':')
    ensures Split(Username(account), ':')
         == [system, kind] + (Split(account.namespace, ':') + Split(account.name, ':'))
  {
    hide Split, FreeOf;
    FourFields(system, kind, account.namespace, account.name, ':');
    assert Username(account) == system + [':'] + (kind + [':'] + (account.namespace + [':'] + account.name));
  }

  /** Text that is cut into one part is that part. */
  lemma {:induction false} SinglePart(s: string, sep: char)
    requires |Split(s, sep)| == 1
    ensures Split(s, sep) == [s]
  {
    JoinOfSplit(s, sep);
  }

  /** The allowlist comparison decides exactly whether the pair that the username names is in the list.
      The entries are arbitrary strings, with colons or empty. */
  lemma {:induction false} AllowsExactlyTheNamedAccount(accounts: seq<ServiceAccountReference>, principal: string)
    requires ValidServiceAccount(principal)
    ensures Allows(accounts, principal) <==> Account(principal) in accounts
  {
    PrefixFields();
    NamesItsAccount(principal);
    forall i | 0 <= i < |accounts| && principal == Username(accounts[i]) ensures accounts[i] == Account(principal) {
      var account := accounts[i];
      PrefixedFields(account, "system", "serviceaccount");
      SinglePart(account.namespace, ':');
      SinglePart(account.name, ':');
    }
  }

  // ---------- which usernames are accepted ----------

  /** [a-z0-9], or that with [-a-z0-9]* and another [a-z0-9] after it. */
  ghost predicate MatchesLabel(s: string) {
    || (exists a :: s == [a] && Alphanumeric(a))
    || (exists a, middle, b :: s == [a] + middle + [b] && Alphanumeric(a) && Alphanumeric(b) && Inner(middle))
  }

  ghost predicate Inner(middle: string) {
    forall c :: c in middle ==> 'a' <= c <= 'z' || '0' <= c <= '9' || c == '-'
  }

  lemma {:induction false} LabelExact(s: string)
    ensures LabelShaped(s) <==> MatchesLabel(s)
  {
    if LabelShaped(s) {
      if |s| == 1 {
        assert s == [s[0]];
      } else {
        var a, middle, b := s[0], s[1..|s| - 1], s[|s| - 1];
        assert forall c :: c in middle ==> c in s;
        assert s == [a] + middle + [b] && Inner(middle);
      }
    }
  }

  /** Labels, one or more, joined by dots. */
  ghost predicate LabelsJoined(s: string) {
    exists labels: seq<string> ::
      |labels| > 0 && s == Join(labels, '.') && forall i :: 0 <= i < |labels| ==> LabelShaped(labels[i])
  }

  lemma {:induction false} SubdomainExact(s: string)
    ensures DnsSubdomain(s) <==> |s| <= 253 && LabelsJoined(s)
  {
    JoinOfSplit(s, '.');
    if LabelsJoined(s) {
      var labels: seq<string> :|
        |labels| > 0 && s == Join(labels, '.') && forall i :: 0 <= i < |labels| ==> LabelShaped(labels[i]);
      SplitOfJoin(labels, '.');
    }
  }

  lemma {:induction false} DnsNamesHaveNoColon(account: ServiceAccountReference)
    requires DnsLabel(account.namespace) && DnsSubdomain(account.name)
    ensures FreeOf(account.namespace, ':') && FreeOf(account.name, ':')
  {
    hide DnsLabel, LabelShaped;
    assert FreeOf(account.namespace, ':') by { LabelHasNoColon(account.namespace); }
    var labels := Split(account.name, '.');
    JoinOfSplit(account.name, '.');
    forall i | 0 <= i < |labels| ensures FreeOf(labels[i], ':') { LabelHasNoColon(labels[i]); }
    JoinHasNoColon(labels);
  }

  lemma {:induction false} LabelHasNoColon(s: string)
    requires DnsLabel(s) || LabelShaped(s)
    ensures FreeOf(s, ':')
  {
  }

  lemma {:induction false} JoinHasNoColon(labels: seq<string>)
    requires |labels| > 0 && forall i :: 0 <= i < |labels| ==> FreeOf(labels[i], ':')
    ensures FreeOf(Join(labels, '.'), ':')
  {
    if |labels| > 1 { JoinHasNoColon(labels[1..]); }
  }

  /** The accepted usernames are exactly those of the accounts with DNS names, and each names its account. */
  lemma {:induction false} ValidExactlyForAccounts(username: string)
    ensures ValidServiceAccount(username) <==>
      exists account :: Names(username, account)
    ensures forall account :: Names(username, account) ==> ValidServiceAccount(username) && Account(username) == account
  {
    hide DnsLabel, DnsSubdomain;
    PrefixFields();
    if ValidServiceAccount(username) {
      NamesItsAccount(username);
    }
    forall account | Names(username, account) ensures ValidServiceAccount(username) && Account(username) == account {
      DnsNamesHaveNoColon(account);
      PrefixedFields(account, "system", "serviceaccount");
      SplitFreeString(account.namespace, ':');
      SplitFreeString(account.name, ':');
    }
  }

  /** system:serviceaccount:<namespace>:<name>, with a DNS label and a DNS subdomain. */
  ghost predicate Names(username: string, account: ServiceAccountReference) {
    && username == "system:serviceaccount:" + account.namespace + ":" + account.name
    && DnsLabel(account.namespace) && DnsSubdomain(account.name)
  }

  lemma {:induction false} NamesItsAccount(username: string)
    requires ValidServiceAccount(username)
    ensures username == Username(Account(username)) && Names(username, Account(username))
  {
    hide DnsLabel, DnsSubdomain;
    var parts := Split(username, ':');
    PrefixFields();
    JoinOfSplit(username, ':');
    assert parts[1..][1..] == [parts[2], parts[3]];
    assert Join([parts[2], parts[3]], ':') == parts[2] + [':'] + parts[3];
  }
}

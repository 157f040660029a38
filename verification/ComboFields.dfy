/**
 The two compound values of the combo form. An account is `user@location`; a site is
 `host[:port][/query][@company]`. Each is printed from its fields and, when an entry is
 edited, split into them again.
 */
module ComboFields {
  import opened Decimal
  import opened Options
  import opened Text

  datatype Account = Account(user: string, location: string)
  datatype Site = Site(host: string, port: string, query: string, company: string)

  predicate ValidPort(text: string) {
    text == [] || (AllDigits(text) && 1 <= Value(text) <= 65535)
  }

  /** The ports a form accepts: none, or digits for a number from 1 to 65535, leading zeros or not. */
  lemma PortsExactly(text: string, n: nat)
    ensures ValidPort(text) ==> forall i :: 0 <= i < |text| ==> text[i] in "0123456789"
    ensures ValidPort(Numeral(n)) <==> 1 <= n < 0x1_0000
    ensures ValidPort("")
  {
    if ValidPort(text) {
      forall i | 0 <= i < |text| ensures text[i] in "0123456789" {
        assert IsDigit(text[i]);
        assert "0123456789"[text[i] as int - '0' as int] == text[i];
      }
    }
  }

  function NormalizeQuery(text: string): string {
    var t := Trim(text);
    if t != [] && t[0] == '/' then t[1..] else t
  }

  function BuildAccount(a: Account): string {
    var user, location := Trim(a.user), Trim(a.location);
    if user == [] || location == [] then [] else user + "@" + location
  }

  function SplitAccount(account: string): Account {
    var t := Trim(account);
    match IndexOf(t, '@')
    case None => Account(t, "")
    case Some(at) => Account(Trim(t[..at]), Trim(t[at + 1..]))
  }

  /** A field that is printed only when it is not empty, after its delimiter. */
  function Part(delimiter: char, text: string): string {
    if text == [] then [] else [delimiter] + text
  }

  function BuildSite(s: Site): string {
    var host := Trim(s.host);
    if host == [] then []
    else host + Part(':', Trim(s.port)) + Part('/', NormalizeQuery(s.query)) + Part('@', Trim(s.company))
  }

  datatype Cut = Cut(left: string, right: string)

  function CutCompany(text: string): Cut {
    match LastIndexOf(text, '@')
    case None => Cut(text, "")
    case Some(at) => Cut(Trim(text[..at]), Trim(text[at + 1..]))
  }

  function CutQuery(text: string): Cut {
    match IndexOf(text, '/')
    case None => Cut(text, "")
    case Some(slash) => Cut(Trim(text[..slash]), NormalizeQuery(text[slash + 1..]))
  }

  /** A colon splits off a port only when what follows it could be one. */
  function CutPort(text: string): Cut {
    var colon := LastIndexOf(text, ':');
    if colon.Some? && ValidPort(Trim(text[colon.value + 1..]))
    then Cut(Trim(text[..colon.value]), Trim(text[colon.value + 1..]))
    else Cut(Trim(text), "")
  }

  function SplitSite(site: string): Site {
    var whole := Trim(site);
    if whole == [] then Site("", "", "", "")
    else
      var company := CutCompany(whole);
      var query := CutQuery(company.left);
      var port := CutPort(query.left);
      Site(port.left, port.right, query.right, company.right)
  }

  // ---------------------------------------------------------------- account

  predicate AccountSurvives(a: Account) {
    a == Account("", "") ||
    (a.user != [] && a.location != [] && Trimmed(a.user) && Trimmed(a.location) && '@' !in a.user)
  }

  /** An account comes back from its printed form exactly when both fields are there, clean, and the user has no '@'. */
  lemma AccountRoundTrip(a: Account)
    ensures SplitAccount(BuildAccount(a)) == a <==> AccountSurvives(a)
  {
    TrimFacts(a.user);
    TrimFacts(a.location);
    SplitAccountFacts(BuildAccount(a));
    hide Trim;
    if AccountSurvives(a) && a.user != [] {
      IndexOfIs(a.user, '@', a.location);
      var text := BuildAccount(a);
      assert text == a.user + ['@'] + a.location;
      assert text[..|a.user|] == a.user && text[|a.user| + 1..] == a.location;
      TrimFacts(text);
    }
  }

  /** What splitting can produce at all, and how much text it needs for it. */
  lemma SplitAccountFacts(text: string)
    ensures var a := SplitAccount(text);
      && Trimmed(a.user) && Trimmed(a.location) && '@' !in a.user
      && (a.location != [] ==> |a.user| + 1 + |a.location| <= |text|)
      && (a.location != [] && |a.user| + 1 + |a.location| == |text| ==> text == a.user + "@" + a.location)
  {
    var t := Trim(text);
    TrimFacts(text);
    hide Trim;
    var at := IndexOf(t, '@');
    if at.Some? {
      TrimFacts(t[..at.value]);
      TrimFacts(t[at.value + 1..]);
      assert t == t[..at.value] + [t[at.value]] + t[at.value + 1..];
    }
  }

  // ---------------------------------------------------------------- site

  predicate Absent(c: char, s: string) { c !in s }

  predicate SiteSurvives(s: Site) {
    s == Site("", "", "", "") ||
    (&& s.host != [] && Trimmed(s.host) && Absent('/', s.host)
     && ValidPort(s.port)
     && (s.port == [] ==> CutsNoPort(s.host))
     && Trimmed(s.query) && (s.query == [] || s.query[0] != '/')
     && Trimmed(s.company) && Absent('@', s.company)
     && (s.company == [] ==> Absent('@', s.host) && Absent('@', s.query)))
  }

  /** Nothing after the host's last colon could be mistaken for a port. */
  predicate CutsNoPort(host: string) {
    var colon := LastIndexOf(host, ':');
    colon.None? || !ValidPort(Trim(host[colon.value + 1..]))
  }

  lemma DigitsAreClean(port: string)
    requires ValidPort(port)
    ensures Trimmed(port) && Absent('/', port) && Absent('@', port) && Absent(':', port)
  {
  }

  /** A query is left alone exactly if it is clean and has no slash in front. */
  lemma QueryExactly(query: string)
    ensures NormalizeQuery(query) == query <==> Trimmed(query) && (query == [] || query[0] != '/')
  {
    TrimFacts(query);
  }

  /** Of a query with a slash in front, one slash goes: both ways of entering it mean the same. */
  lemma SlashGoes(query: string)
    requires query == [] || !IsSpace(query[|query| - 1])
    ensures NormalizeQuery("/" + query) == query
  {
    TrimFacts("/" + query);
    assert ("/" + query)[1..] == query;
  }

  lemma NormalizeFacts(text: string)
    ensures |NormalizeQuery(text)| <= |text|
    ensures |NormalizeQuery(text)| == |text| ==> NormalizeQuery(text) == text
    ensures NormalizeQuery(text) == text ==> Trimmed(text)
    ensures NormalizeQuery(text) != [] ==> !IsSpace(NormalizeQuery(text)[|NormalizeQuery(text)| - 1])
  {
    TrimFacts(text);
  }

  lemma PartFacts(delimiter: char, text: string)
    ensures |Part(delimiter, text)| == if text == [] then 0 else 1 + |text|
    ensures forall c :: c != delimiter && Absent(c, text) ==> Absent(c, Part(delimiter, text))
  {
  }

  lemma ConcatFacts(a: string, b: string)
    ensures forall c :: Absent(c, a + b) <==> Absent(c, a) && Absent(c, b)
    ensures a != [] && !IsSpace(a[0]) && (if b == [] then Trimmed(a) else !IsSpace(b[|b| - 1])) ==> Trimmed(a + b)
  {
    assert b == [] ==> a + b == a;
  }

  lemma PartSlices(left: string, c: char, right: string)
    requires right != []
    ensures var text := left + Part(c, right);
      text == left + [c] + right && |left| < |text| && text[..|left|] == left && text[|left| + 1..] == right
  {
  }

  lemma CutPortUndoes(host: string, port: string)
    requires host != [] && Trimmed(host) && ValidPort(port)
    ensures port != [] || CutsNoPort(host) <==> CutPort(host + Part(':', port)) == Cut(host, port)
  {
    if port == [] {
      TrimFacts(host);
      assert host + Part(':', port) == host;
      var colon := LastIndexOf(host, ':');
      if colon.Some? { TrimFacts(host[..colon.value]); }
    } else {
      CutPortAfterColon(host, port);
    }
  }

  lemma CutPortAfterColon(host: string, port: string)
    requires Trimmed(host) && ValidPort(port) && port != []
    ensures CutPort(host + Part(':', port)) == Cut(host, port)
  {
    hide Trim, Trimmed, ValidPort, LastIndexOf, Part;
    TrimFacts(host);
    TrimFacts(port);
    DigitsAreClean(port);
    LastIndexOfIs(host, ':', port);
    PartSlices(host, ':', port);
  }

  lemma CutQueryUndoes(left: string, query: string)
    requires Trimmed(left) && Absent('/', left)
    ensures CutQuery(left + Part('/', query)) == Cut(left, NormalizeQuery(query))
  {
    TrimFacts(left);
    TrimFacts(query);
    if query == [] {
      assert left + Part('/', query) == left;
    } else {
      hide Trim, IndexOf, NormalizeQuery, Part;
      IndexOfIs(left, '/', query);
      PartSlices(left, '/', query);
    }
  }

  lemma CutCompanyUndoes(left: string, company: string)
    requires Trimmed(left) && Trimmed(company) && Absent('@', company)
    ensures company != [] || Absent('@', left) ==> CutCompany(left + Part('@', company)) == Cut(left, company)
    ensures company == [] && !Absent('@', left) ==> |CutCompany(left + Part('@', company)).left| < |left|
  {
    TrimFacts(left);
    TrimFacts(company);
    if company == [] {
      assert left + Part('@', company) == left;
      var at := LastIndexOf(left, '@');
      if at.Some? { TrimFacts(left[..at.value]); }
    } else {
      hide Trim, LastIndexOf, Part;
      LastIndexOfIs(left, '@', company);
      PartSlices(left, '@', company);
    }
  }

  /** What the last two cuts can produce, and how much text they need for it. */
  lemma CutFacts(text: string)
    ensures var query := CutQuery(text); var port := CutPort(query.left);
      && |port.left| + |Part(':', port.right)| + |Part('/', query.right)| <= |text|
      && Trimmed(port.left) && Absent('/', port.left) && ValidPort(port.right)
  {
    var query := CutQuery(text);
    var slash := IndexOf(text, '/');
    if slash.Some? {
      TrimFacts(text[..slash.value]);
      NormalizeFacts(text[slash.value + 1..]);
      PartFacts('/', query.right);
    }
    assert |query.left| + |Part('/', query.right)| <= |text| && Absent('/', query.left);
    CutPortFacts(query.left);
  }

  lemma CutPortFacts(text: string)
    requires Absent('/', text)
    ensures var port := CutPort(text);
      |port.left| + |Part(':', port.right)| <= |text| && Trimmed(port.left) && Absent('/', port.left) && ValidPort(port.right)
  {
    TrimFacts(text);
    var colon := LastIndexOf(text, ':');
    if colon.Some? {
      TrimFacts(text[..colon.value]);
      TrimFacts(text[colon.value + 1..]);
    }
  }

  lemma SplitSiteFacts(text: string)
    ensures var s := SplitSite(text);
      && Trimmed(s.host) && Absent('/', s.host) && ValidPort(s.port) && Trimmed(s.company) && Absent('@', s.company)
  {
    var whole := Trim(text);
    TrimFacts(text);
    if whole != [] {
      CutFacts(CutCompany(whole).left);
      var at := LastIndexOf(whole, '@');
      if at.Some? { TrimFacts(whole[at.value + 1..]); }
    }
  }

  /** Everything of a site before its company. */
  function Address(s: Site): string { s.host + Part(':', s.port) + Part('/', NormalizeQuery(s.query)) }

  lemma BuildSiteShape(s: Site)
    requires s.host != [] && Trimmed(s.host) && ValidPort(s.port) && Trimmed(s.company)
    ensures BuildSite(s) == Address(s) + Part('@', s.company)
    ensures Trimmed(Address(s)) && Trimmed(BuildSite(s))
  {
    TrimFacts(s.host);
    TrimFacts(s.port);
    TrimFacts(s.company);
    DigitsAreClean(s.port);
    NormalizeFacts(s.query);
    ConcatFacts(s.host, Part(':', s.port));
    ConcatFacts(s.host + Part(':', s.port), Part('/', NormalizeQuery(s.query)));
    ConcatFacts(Address(s), Part('@', s.company));
  }

  lemma SiteComesBack(s: Site)
    requires SiteSurvives(s) && s.host != []
    ensures SplitSite(BuildSite(s)) == s
  {
    BuildSiteShape(s);
    TrimFacts(BuildSite(s));
    DigitsAreClean(s.port);
    QueryExactly(s.query);
    NormalizeFacts(s.query);
    var hostPort := s.host + Part(':', s.port);
    PartFacts(':', s.port);
    PartFacts('/', s.query);
    ConcatFacts(s.host, Part(':', s.port));
    ConcatFacts(hostPort, Part('/', s.query));
    CutCompanyUndoes(Address(s), s.company);
    CutQueryUndoes(hostPort, s.query);
    CutPortUndoes(s.host, s.port);
  }

  lemma SurvivorKeepsCompanyApart(s: Site)
    requires SplitSite(BuildSite(s)) == s && s.host != []
    ensures s.company == [] ==> Absent('@', Address(s))
    ensures CutCompany(BuildSite(s)) == Cut(Address(s), s.company)
  {
    SplitSiteFacts(BuildSite(s));
    BuildSiteShape(s);
    TrimFacts(BuildSite(s));
    CutCompanyUndoes(Address(s), s.company);
    CutFacts(CutCompany(BuildSite(s)).left);
    NormalizeFacts(s.query);
    PartFacts('/', s.query);
    PartFacts('/', NormalizeQuery(s.query));
  }

  /** The query and what is before it, as they are read back. */
  lemma SurvivorKeepsQuery(s: Site)
    requires SplitSite(BuildSite(s)) == s && s.host != []
    ensures Trimmed(s.host) && Absent('/', s.host) && ValidPort(s.port) && Trimmed(s.company) && Absent('@', s.company)
    ensures NormalizeQuery(s.query) == s.query && CutPort(s.host + Part(':', s.port)) == Cut(s.host, s.port)
  {
    SplitSiteFacts(BuildSite(s));
    BuildSiteShape(s);
    SurvivorKeepsCompanyApart(s);
    SplitOfClean(BuildSite(s));
    hide Trim, LastIndexOf, IndexOf, SplitSite, BuildSite, CutPort, CutQuery, CutCompany, NormalizeQuery, Part, ValidPort, CutsNoPort;
    var hostPort := s.host + Part(':', s.port);
    DigitsAreClean(s.port);
    PartFacts(':', s.port);
    ConcatFacts(s.host, Part(':', s.port));
    CleanHostPort(s);
    CutQueryUndoes(hostPort, NormalizeQuery(s.query));
    NormalizeFacts(s.query);
    NormalizeFacts(NormalizeQuery(s.query));
  }

  lemma SplitOfClean(text: string)
    requires Trimmed(text) && text != []
    ensures var company := CutCompany(text); var query := CutQuery(company.left); var port := CutPort(query.left);
      SplitSite(text) == Site(port.left, port.right, query.right, company.right)
  {
    TrimFacts(text);
    hide CutCompany, CutQuery, CutPort;
  }

  lemma CleanHostPort(s: Site)
    requires s.host != [] && Trimmed(s.host) && ValidPort(s.port)
    ensures Trimmed(s.host + Part(':', s.port))
  {
    DigitsAreClean(s.port);
    ConcatFacts(s.host, Part(':', s.port));
  }

  lemma OnlySurvivorsComeBack(s: Site)
    requires SplitSite(BuildSite(s)) == s && s.host != []
    ensures SiteSurvives(s)
  {
    SurvivorKeepsQuery(s);
    SurvivorKeepsCompanyApart(s);
    var hostPort := s.host + Part(':', s.port);
    PartFacts(':', s.port);
    PartFacts('/', s.query);
    ConcatFacts(s.host, Part(':', s.port));
    ConcatFacts(hostPort, Part('/', s.query));
    QueryExactly(s.query);
    CutPortUndoes(s.host, s.port);
    PartHas('/', s.query);
    hide Trim, LastIndexOf, IndexOf, SplitSite, BuildSite, CutPort, NormalizeQuery, Part;
  }

  /** What is absent from a printed part is absent from its text. */
  lemma PartHas(delimiter: char, text: string)
    ensures forall c :: Absent(c, Part(delimiter, text)) ==> Absent(c, text)
  {
  }

  /**
   A site comes back from its printed form exactly when its fields respect the
   delimiters. In particular a host with a '/' (such as a full URL) never does.
   */
  lemma SiteRoundTrip(s: Site)
    ensures SplitSite(BuildSite(s)) == s <==> SiteSurvives(s)
  {
    TrimFacts(s.host);
    QueryExactly(s.query);
    if s.host != [] {
      if SiteSurvives(s) { SiteComesBack(s); }
      if SplitSite(BuildSite(s)) == s { OnlySurvivorsComeBack(s); }
    }
  }
}

/** Reddit posts by their canonical URL: reading a thread out of any of its addresses, writing
    it back, and collecting distinct threads. */
module Reddit {
  import opened Options
  import opened SearchTypes
  import opened Seqs

  // ---- strings ---------------------------------------------------------------------------

  /** What precedes the first `c`; everything if there is none. */
  function Upto(s: string, c: char): string {
    if s == "" || s[0] == c then "" else [s[0]] + Upto(s[1..], c)
  }

  /** The rest, starting with that `c`; empty if there is none. */
  function From(s: string, c: char): string {
    if s == "" || s[0] == c then s else From(s[1..], c)
  }

  lemma {:induction false} SkipPrefix(a: string, b: string, c: char)
    requires c !in a
    ensures Upto(a + b, c) == a + Upto(b, c) && From(a + b, c) == From(b, c)
  {
    if a == "" {
      assert a + b == b;
    } else {
      var s := a + b;
      SkipPrefix(a[1..], b, c);
      assert s[1..] == a[1..] + b;
      assert Upto(s, c) == [a[0]] + Upto(s[1..], c) && From(s, c) == From(s[1..], c);
      assert [a[0]] + (a[1..] + Upto(b, c)) == a + Upto(b, c);
    }
  }

  function TrimSlashes(s: string): string { TrimSlashesRight(TrimSlashesLeft(s)) }

  function TrimSlashesLeft(s: string): string {
    if s != "" && s[0] == '/' then TrimSlashesLeft(s[1..]) else s
  }

  function TrimSlashesRight(s: string): string {
    if s != "" && s[|s| - 1] == '/' then TrimSlashesRight(s[..|s| - 1]) else s
  }

  /** Go's `strings.Split` on a slash. */
  function Split(s: string): (parts: seq<string>)
    ensures |parts| >= 1 && forall i :: 0 <= i < |parts| ==> '/' !in parts[i]
    decreases |s|
  {
    var head, rest := Upto(s, '/'), From(s, '/');
    UptoFrom(s, '/');
    if rest == "" then [head] else [head] + Split(rest[1..])
  }

  lemma {:induction false} UptoFrom(s: string, c: char)
    ensures Upto(s, c) + From(s, c) == s && c !in Upto(s, c)
    ensures From(s, c) != "" ==> From(s, c)[0] == c
  {
    if s != "" && s[0] != c {
      UptoFrom(s[1..], c);
    }
  }

  lemma SplitHead(a: string, b: string)
    requires '/' !in a
    ensures Split(a + "/" + b) == [a] + Split(b)
    ensures Split(a) == [a]
  {
    SkipPrefix(a, "/" + b, '/');
    SkipPrefix(a, "", '/');
    assert a + "" == a && a + "/" + b == a + ("/" + b);
    assert ("/" + b)[1..] == b;
  }

  // ---- URLs ------------------------------------------------------------------------------

  datatype Url = Url(scheme: string, hasUser: bool, host: string, port: string, path: string)

  predicate Printable(s: string) { forall i :: 0 <= i < |s| ==> s[i] >= ' ' && s[i] != '\U{7f}' }

  function Parse(raw: string): Option<Url> {
    var s := Upto(raw, '#');
    var rest := From(s, ':');
    if !Printable(s) || !("://" <= rest) then None
    else
      var hier := Upto(rest[3..], '?');
      var authority, path := Upto(hier, '/'), From(hier, '/');
      var port := From(authority, ':');
      Some(Url(Lower(Upto(s, ':')), '@' in authority, Upto(authority, ':'),
               if port == "" then "" else port[1..], path))
  }

  predicate PathChar(c: char) {
    'a' <= c <= 'z' || 'A' <= c <= 'Z' || '0' <= c <= '9' || c in "-_.~!$&'()*+,;=:@[]/"
  }

  /** What escaping would touch: everything outside visible ASCII, and eleven characters more. */
  lemma PathCharMeaning(c: char)
    ensures PathChar(c) <==> '!' <= c <= '~' && c !in "\"#%<>?\\^`{|}"
  {
  }

  /** A path whose escaped form has no percent sign. */
  predicate PlainPath(path: string) { forall i :: 0 <= i < |path| ==> PathChar(path[i]) }

  predicate IsBase36(s: string) {
    s != "" && forall i :: 0 <= i < |s| ==>
      '0' <= s[i] <= '9' || 'a' <= s[i] <= 'z' || 'A' <= s[i] <= 'Z'
  }

  const HOSTS: set<string> := {"reddit.com", "www.reddit.com", "old.reddit.com", "np.reddit.com"}

  /** A post: its subreddit, as spelled, and its id in lower case. */
  datatype Thread = Thread(subreddit: string, id: string)

  predicate ValidThread(t: Thread) {
    t.subreddit != "" && '/' !in t.subreddit && PlainPath(t.subreddit) && IsBase36(t.id) && Lower(t.id) == t.id
  }

  /** The thread a URL addresses, if it is an acceptable Reddit post URL. */
  function ThreadOf(raw: string): Option<Thread> {
    match Parse(raw)
    case None => None
    case Some(u) =>
      if (u.scheme != "http" && u.scheme != "https") || u.hasUser || u.port != "" then None
      else if Lower(u.host) !in HOSTS then None
      else if !PlainPath(u.path) then None
      else
        var segments := Split(TrimSlashes(u.path));
        if |segments| < 4 || Lower(segments[0]) != "r" || segments[1] == ""
           || Lower(segments[2]) != "comments" || !IsBase36(segments[3]) then None
        else Some(Thread(segments[1], Lower(segments[3])))
  }

  function ThreadPath(t: Thread): string { "/r/" + t.subreddit + "/comments/" + t.id + "/" }

  function Print(t: Thread): string { "https://www.reddit.com" + ThreadPath(t) }

  function Canonical(raw: string): Option<string> {
    match ThreadOf(raw) case None => None case Some(t) => Some(Print(t))
  }

  // ---- the addresses of a thread ---------------------------------------------------------

  /** The free parts of an address: how scheme, host, fixed path words and id are spelled, an
      empty port, extra slashes in front, and what follows the id. */
  datatype Address = Address(scheme: string, host: string, colon: string, lead: string, r: string,
                             comments: string, id: string, rest: string, query: string, fragment: string)

  /** Four segments, and what a further slash brings. */
  function Four(a: string, b: string, c: string, d: string, tail: string): string {
    a + "/" + (b + "/" + (c + "/" + (d + tail)))
  }

  function PostPart(a: Address, t: Thread): string {
    Four(a.r, t.subreddit, a.comments, a.id, a.rest)
  }

  function Spell(a: Address, t: Thread): string {
    a.scheme + "://" + (a.host + a.colon + (a.lead + PostPart(a, t)) + a.query) + a.fragment
  }

  predicate Slashes(s: string) { forall i :: 0 <= i < |s| ==> s[i] == '/' }

  predicate StartsWith(s: string, c: char) { s == "" || s[0] == c }

  predicate Addresses(a: Address, t: Thread) {
    && ValidThread(t)
    && (Lower(a.scheme) == "http" || Lower(a.scheme) == "https")
    && (Lower(a.host) == "reddit.com" || Lower(a.host) == "www.reddit.com"
        || Lower(a.host) == "old.reddit.com" || Lower(a.host) == "np.reddit.com")
    && (a.colon == "" || a.colon == ":")
    && a.lead != "" && Slashes(a.lead)
    && Lower(a.r) == "r" && Lower(a.comments) == "comments" && Lower(a.id) == t.id
    && a.id != "" && (forall i :: 0 <= i < |a.id| ==>
                        '0' <= a.id[i] <= '9' || 'a' <= a.id[i] <= 'z' || 'A' <= a.id[i] <= 'Z')
    && StartsWith(a.rest, '/') && PlainPath(a.rest)
    && StartsWith(a.query, '?') && '#' !in a.query && Printable(a.query)
    && StartsWith(a.fragment, '#')
  }

  // ---- reading an address ----------------------------------------------------------------

  /** A letter-for-letter match up to case has the same harmless characters. */
  lemma LowerMatchIsPlain(s: string, word: string)
    requires Lower(s) == word && forall i :: 0 <= i < |word| ==> 'a' <= word[i] <= 'z' || word[i] == '.'
    ensures PlainPath(s) && Printable(s) && '/' !in s && ':' !in s && '#' !in s && '@' !in s && '?' !in s
  {
    forall i | 0 <= i < |s|
      ensures PathChar(s[i]) && s[i] >= ' ' && s[i] != '\U{7f}' && s[i] !in "/:#@?"
    {
      assert Lower(s)[i] == LowerChar(s[i]);
    }
  }

  lemma HostIsPlain(host: string)
    requires Lower(host) in HOSTS
    ensures Printable(host) && '/' !in host && ':' !in host && '#' !in host && '@' !in host && '?' !in host
  {
    LowerMatchIsPlain(host, Lower(host));
  }

  /** The part after the scheme's `://`, up to the query. */
  lemma CutHier(authority: string, path: string, query: string)
    requires '/' !in authority && '?' !in authority
    requires path != "" && path[0] == '/' && '?' !in path
    requires StartsWith(query, '?')
    ensures var hier := Upto(authority + path + query, '?');
            hier == authority + path && Upto(hier, '/') == authority && From(hier, '/') == path
  {
    SkipPrefix(authority + path, query, '?');
    assert Upto(query, '?') == "" && authority + path + "" == authority + path;
    SkipPrefix(authority, path, '/');
    assert authority + "" == authority;
  }

  lemma CutPort(host: string, colon: string)
    requires ':' !in host && (colon == "" || colon == ":")
    ensures Upto(host + colon, ':') == host && From(host + colon, ':') == colon
  {
    SkipPrefix(host, colon, ':');
    assert host + "" == host;
  }

  /** Where the fragment and the scheme end. */
  lemma CutScheme(scheme: string, hostPath: string, fragment: string)
    requires ':' !in scheme && '#' !in scheme && '#' !in hostPath
    requires StartsWith(fragment, '#')
    ensures var s := scheme + "://" + hostPath;
            && Upto(s + fragment, '#') == s
            && Upto(s, ':') == scheme && From(s, ':') == "://" + hostPath
            && ("://" + hostPath)[3..] == hostPath
  {
    var s := scheme + "://" + hostPath;
    SkipPrefix(s, fragment, '#');
    assert Upto(fragment, '#') == "" && s + "" == s;
    assert s == scheme + ("://" + hostPath);
    SkipPrefix(scheme, "://" + hostPath, ':');
    assert scheme + "" == scheme;
  }

  lemma PathHasNoDelimiters(path: string)
    requires PlainPath(path)
    ensures '#' !in path && '?' !in path && Printable(path)
  {
    forall i | 0 <= i < |path|
      ensures path[i] != '#' && path[i] != '?' && path[i] >= ' ' && path[i] != '\U{7f}'
    {
      assert PathChar(path[i]);
    }
  }

  lemma PrintableConcat(a: string, b: string)
    ensures Printable(a + b) <==> Printable(a) && Printable(b)
  {
    var s := a + b;
    assert forall i :: 0 <= i < |a| ==> s[i] == a[i];
    assert forall i :: 0 <= i < |b| ==> s[|a| + i] == b[i];
  }

  lemma PlainConcat(a: string, b: string)
    ensures PlainPath(a + b) <==> PlainPath(a) && PlainPath(b)
  {
    var s := a + b;
    assert forall i :: 0 <= i < |a| ==> s[i] == a[i];
    assert forall i :: 0 <= i < |b| ==> s[|a| + i] == b[i];
  }

  /** An address assembled from parts reads back as those parts. */
  lemma ParseBuilt(scheme: string, host: string, colon: string, path: string, query: string, fragment: string)
    requires ':' !in scheme && '#' !in scheme && Printable(scheme)
    requires '/' !in host && ':' !in host && '@' !in host && '?' !in host && '#' !in host && Printable(host)
    requires colon == "" || colon == ":"
    requires path != "" && path[0] == '/' && PlainPath(path)
    requires StartsWith(query, '?') && '#' !in query && Printable(query)
    requires StartsWith(fragment, '#')
    ensures Parse(scheme + "://" + (host + colon + path + query) + fragment)
         == Some(Url(Lower(scheme), false, host, "", path))
  {
    var authority := host + colon;
    PathHasNoDelimiters(path);
    CutScheme(scheme, authority + path + query, fragment);
    CutHier(authority, path, query);
    CutPort(host, colon);
    AllPrintable(scheme, host, colon, path, query);
  }

  lemma AllPrintable(scheme: string, host: string, colon: string, path: string, query: string)
    requires Printable(scheme) && Printable(host) && Printable(path) && Printable(query)
    requires colon == "" || colon == ":"
    ensures Printable(scheme + "://" + (host + colon + path + query))
  {
    PrintableConcat(host + colon + path, query);
    PrintableConcat(host + colon, path);
    PrintableConcat(host, colon);
    PrintableConcat(scheme + "://", host + colon + path + query);
    PrintableConcat(scheme, "://");
  }

  lemma {:induction false} TrimLead(lead: string, s: string)
    requires Slashes(lead) && s != "" && s[0] != '/'
    ensures TrimSlashesLeft(lead + s) == s
  {
    if lead == "" {
      assert lead + s == s;
    } else {
      TrimLead(lead[1..], s);
      assert (lead + s)[1..] == lead[1..] + s;
    }
  }

  /** Trimming trailing slashes never eats into a part that ends otherwise. */
  lemma {:induction false} TrimTail(head: string, rest: string) returns (tail: string)
    requires head != "" && head[|head| - 1] != '/' && StartsWith(rest, '/')
    ensures TrimSlashesRight(head + rest) == head + tail && StartsWith(tail, '/')
  {
    if rest != "" && rest[|rest| - 1] == '/' {
      assert (head + rest)[..|head + rest| - 1] == head + rest[..|rest| - 1];
      tail := TrimTail(head, rest[..|rest| - 1]);
    } else {
      if rest == "" {
        assert head + rest == head;
      }
      tail := rest;
    }
  }

  lemma SplitOne(d: string, tail: string)
    requires '/' !in d && StartsWith(tail, '/')
    ensures Split(d + tail)[0] == d
  {
    if tail == "" {
      assert d + tail == d;
      SplitHead(d, "");
    } else {
      assert d + tail == d + "/" + tail[1..];
      SplitHead(d, tail[1..]);
    }
  }

  predicate FirstFour(parts: seq<string>, a: string, b: string, c: string, d: string) {
    |parts| >= 4 && parts[0] == a && parts[1] == b && parts[2] == c && parts[3] == d
  }

  lemma SplitFour(a: string, b: string, c: string, d: string, tail: string)
    requires '/' !in a && '/' !in b && '/' !in c && '/' !in d && StartsWith(tail, '/')
    ensures FirstFour(Split(Four(a, b, c, d, tail)), a, b, c, d)
  {
    var s0 := d + tail;
    var s1 := c + "/" + s0;
    var s2 := b + "/" + s1;
    SplitHead(a, s2);
    SplitHead(b, s1);
    SplitHead(c, s0);
    SplitOne(d, tail);
    var p0, p1 := Split(s0), Split(s1);
    assert p1 == [c] + p0 && Split(s2) == [b] + p1;
  }

  lemma Base36HasNoSlash(id: string)
    requires IsBase36(id)
    ensures '/' !in id && PlainPath(id) && IsBase36(Lower(id))
  {
  }

  lemma PostPartIsPlain(a: Address, t: Thread)
    requires Addresses(a, t)
    ensures PlainPath(a.lead + PostPart(a, t))
  {
    LowerMatchIsPlain(a.r, "r");
    LowerMatchIsPlain(a.comments, "comments");
    Base36HasNoSlash(a.id);
    assert PlainPath(a.lead);
    FourIsPlain(a.r, t.subreddit, a.comments, a.id, a.rest);
    PlainConcat(a.lead, PostPart(a, t));
  }

  lemma FourIsPlain(a: string, b: string, c: string, d: string, tail: string)
    requires PlainPath(a) && PlainPath(b) && PlainPath(c) && PlainPath(d) && PlainPath(tail)
    ensures PlainPath(Four(a, b, c, d, tail))
  {
    var s0 := d + tail;
    var s1 := c + "/" + s0;
    var s2 := b + "/" + s1;
    assert PlainPath("/");
    PlainConcat(d, tail);
    PlainConcat(c, "/");
    PlainConcat(c + "/", s0);
    PlainConcat(b, "/");
    PlainConcat(b + "/", s1);
    PlainConcat(a, "/");
    PlainConcat(a + "/", s2);
  }

  lemma FourTail(a: string, b: string, c: string, d: string, tail: string)
    ensures Four(a, b, c, d, tail) == Four(a, b, c, d, "") + tail
  {
  }

  /** The segments of a post path, whatever follows the id. */
  lemma PostSegments(a: Address, t: Thread)
    requires Addresses(a, t)
    ensures FirstFour(Split(TrimSlashes(a.lead + PostPart(a, t))), a.r, t.subreddit, a.comments, a.id)
  {
    LowerMatchIsPlain(a.r, "r");
    LowerMatchIsPlain(a.comments, "comments");
    Base36HasNoSlash(a.id);
    TrimLead(a.lead, PostPart(a, t));
    var head := Four(a.r, t.subreddit, a.comments, a.id, "");
    FourTail(a.r, t.subreddit, a.comments, a.id, a.rest);
    assert head[|head| - 1] == a.id[|a.id| - 1];
    var tail := TrimTail(head, a.rest);
    FourTail(a.r, t.subreddit, a.comments, a.id, tail);
    SplitFour(a.r, t.subreddit, a.comments, a.id, tail);
  }

  /** Every address of a post reads as the same thread. */
  lemma AddressReads(a: Address, t: Thread)
    requires Addresses(a, t)
    ensures ThreadOf(Spell(a, t)) == Some(t)
  {
    LowerMatchIsPlain(a.scheme, Lower(a.scheme));
    HostIsPlain(a.host);
    PostPartIsPlain(a, t);
    ParseBuilt(a.scheme, a.host, a.colon, a.lead + PostPart(a, t), a.query, a.fragment);
    PostSegments(a, t);
  }

  // ---- taking an address apart -----------------------------------------------------------

  lemma {:induction false} TrimmedLeft(s: string) returns (lead: string)
    ensures s == lead + TrimSlashesLeft(s) && Slashes(lead)
    ensures s != "" && s[0] == '/' ==> lead != ""
  {
    if s != "" && s[0] == '/' {
      var rest := TrimmedLeft(s[1..]);
      lead := "/" + rest;
    } else {
      lead := "";
    }
  }

  lemma {:induction false} TrimmedRight(s: string) returns (trail: string)
    ensures s == TrimSlashesRight(s) + trail && Slashes(trail)
  {
    if s != "" && s[|s| - 1] == '/' {
      var rest := TrimmedRight(s[..|s| - 1]);
      trail := rest + "/";
    } else {
      trail := "";
    }
  }

  /** One segment off the front. */
  lemma SplitTakes(s: string) returns (rest: string)
    requires |Split(s)| > 1
    ensures s == Split(s)[0] + "/" + rest && Split(rest) == Split(s)[1..]
  {
    UptoFrom(s, '/');
    rest := From(s, '/')[1..];
    assert From(s, '/') == "/" + rest;
  }

  lemma SplitTakesFour(s: string) returns (tail: string)
    requires |Split(s)| >= 4
    ensures var p := Split(s); s == Four(p[0], p[1], p[2], p[3], tail)
    ensures StartsWith(tail, '/')
  {
    var s1 := SplitTakes(s);
    var s2 := SplitTakes(s1);
    var s3 := SplitTakes(s2);
    UptoFrom(s3, '/');
    tail := From(s3, '/');
    assert Split(s3)[0] == Upto(s3, '/');
  }

  /** The path of an acceptable URL, apart. */
  lemma PathApart(path: string) returns (lead: string, rest: string)
    requires StartsWith(path, '/') && PlainPath(path) && |Split(TrimSlashes(path))| >= 4
    ensures var p := Split(TrimSlashes(path));
            path == lead + Four(p[0], p[1], p[2], p[3], rest)
    ensures lead != "" && Slashes(lead) && StartsWith(rest, '/') && PlainPath(rest)
  {
    var p := Split(TrimSlashes(path));
    lead := TrimmedLeft(path);
    var trail := TrimmedRight(TrimSlashesLeft(path));
    var tail := SplitTakesFour(TrimSlashes(path));
    rest := tail + trail;
    FourTail(p[0], p[1], p[2], p[3], tail);
    FourTail(p[0], p[1], p[2], p[3], rest);
    var head := Four(p[0], p[1], p[2], p[3], "");
    assert TrimSlashesLeft(path) == head + tail + trail == head + rest;
    PlainConcat(lead, head + rest);
    PlainConcat(head, rest);
  }

  lemma PrefixApart(p: string, s: string)
    requires p <= s
    ensures s == p + s[|p|..]
  {
  }

  lemma SuffixChars(a: string, b: string)
    ensures forall c :: c in b ==> c in a + b
  {
  }

  /** Fragment and scheme, apart from what is between. */
  lemma SchemeApart(raw: string) returns (scheme: string, after: string, fragment: string)
    requires "://" <= From(Upto(raw, '#'), ':')
    ensures raw == scheme + "://" + after + fragment && Upto(raw, '#') == scheme + "://" + after
    ensures scheme == Upto(Upto(raw, '#'), ':') && after == From(Upto(raw, '#'), ':')[3..]
    ensures '#' !in after && StartsWith(fragment, '#')
  {
    var s := Upto(raw, '#');
    UptoFrom(raw, '#');
    UptoFrom(s, ':');
    scheme, after, fragment := Upto(s, ':'), From(s, ':')[3..], From(raw, '#');
    PrefixApart("://", From(s, ':'));
    assert s == scheme + ("://" + after);
    SuffixChars(scheme + "://", after);
  }

  /** Authority, path and query, apart. */
  lemma HierApart(after: string) returns (colon: string, query: string)
    ensures var hier := Upto(after, '?');
            var authority := Upto(hier, '/');
            after == Upto(authority, ':') + colon + From(hier, '/') + query && colon == From(authority, ':')
    ensures query == From(after, '?') && StartsWith(query, '?') && StartsWith(From(Upto(after, '?'), '/'), '/')
    ensures colon == "" || colon[0] == ':'
    ensures forall c :: c in query ==> c in after
  {
    var hier := Upto(after, '?');
    var authority := Upto(hier, '/');
    UptoFrom(after, '?');
    UptoFrom(hier, '/');
    UptoFrom(authority, ':');
    colon, query := From(authority, ':'), From(after, '?');
    assert after == hier + query && hier == authority + From(hier, '/');
  }

  /** The URL around the path, apart. */
  lemma UrlApart(raw: string) returns (scheme: string, colon: string, query: string, fragment: string)
    requires Parse(raw).Some? && Parse(raw).value.port == ""
    ensures var u := Parse(raw).value;
            && u.scheme == Lower(scheme)
            && raw == scheme + "://" + (u.host + colon + u.path + query) + fragment
            && StartsWith(u.path, '/')
    ensures colon == "" || colon == ":"
    ensures StartsWith(query, '?') && '#' !in query && Printable(query) && StartsWith(fragment, '#')
  {
    var after;
    scheme, after, fragment := SchemeApart(raw);
    colon, query := HierApart(after);
    if colon != "" {
      assert colon[1..] == "" && colon == [colon[0]] + colon[1..];
    }
    QueryIsPrintable(scheme, after, query);
  }

  lemma QueryIsPrintable(scheme: string, after: string, query: string)
    requires Printable(scheme + "://" + after) && forall c :: c in query ==> c in after
    ensures Printable(query)
  {
    PrintableConcat(scheme + "://", after);
    forall i | 0 <= i < |query|
      ensures query[i] >= ' ' && query[i] != '\U{7f}'
    {
      assert query[i] in after;
    }
  }

  /** A URL is taken for a thread exactly when it is one of the thread's addresses. */
  lemma ReadsIffAddress(raw: string, t: Thread)
    ensures ThreadOf(raw) == Some(t) <==> exists a :: Addresses(a, t) && raw == Spell(a, t)
    ensures ThreadOf(raw) == Some(t) ==>
              Canonical(raw) == Some("https://www.reddit.com/r/" + t.subreddit + "/comments/" + t.id + "/")
  {
    assert "https://www.reddit.com" + ("/r/" + t.subreddit + "/comments/" + t.id + "/")
        == "https://www.reddit.com/r/" + t.subreddit + "/comments/" + t.id + "/";
    if ThreadOf(raw) == Some(t) {
      var a := AddressOf(raw, t);
    } else if a :| Addresses(a, t) && raw == Spell(a, t) {
      AddressReads(a, t);
    }
  }

  lemma AddressOf(raw: string, t: Thread) returns (a: Address)
    requires ThreadOf(raw) == Some(t)
    ensures Addresses(a, t) && raw == Spell(a, t)
  {
    ReadIsValid(raw);
    var u := Parse(raw).value;
    var scheme, colon, query, fragment := UrlApart(raw);
    var lead, rest := PathApart(u.path);
    var p := Split(TrimSlashes(u.path));
    a := Address(scheme, u.host, colon, lead, p[0], p[2], p[3], rest, query, fragment);
    assert u.path == lead + PostPart(a, t);
  }

  lemma LowerTwice(s: string)
    ensures Lower(Lower(s)) == Lower(s)
  {
  }

  lemma FixedWordsAreLower()
    ensures Lower("r") == "r" && Lower("comments") == "comments"
    ensures Lower("https") == "https" && Lower("www.reddit.com") == "www.reddit.com"
  {
  }

  /** Writing a thread and reading it back is the identity. */
  lemma PrintThenRead(t: Thread)
    requires ValidThread(t)
    ensures ThreadOf(Print(t)) == Some(t)
  {
    FixedWordsAreLower();
    var a := Address("https", "www.reddit.com", "", "/", "r", "comments", t.id, "/", "", "");
    assert PlainPath("/");
    PrintIsAddress(t, a);
    AddressReads(a, t);
  }

  lemma PrintIsAddress(t: Thread, a: Address)
    requires a == Address("https", "www.reddit.com", "", "/", "r", "comments", t.id, "/", "", "")
    ensures Print(t) == Spell(a, t)
  {
    ThreadPathIsPostPart(t);
    Ungroup("https", "://", "www.reddit.com", ThreadPath(t));
    assert "https" + "://" + "www.reddit.com" == "https://www.reddit.com";
  }

  lemma ThreadPathIsPostPart(t: Thread)
    ensures "/" + Four("r", t.subreddit, "comments", t.id, "/") == ThreadPath(t)
  {
  }

  lemma Ungroup(a: string, b: string, c: string, d: string)
    ensures a + b + (c + "" + d + "") + "" == a + b + c + d
  {
  }

  lemma ReadIsValid(raw: string)
    requires ThreadOf(raw).Some?
    ensures ValidThread(ThreadOf(raw).value)
  {
    var u := Parse(raw).value;
    var trimmed := TrimSlashes(u.path);
    TrimKeepsPlain(u.path);
    SplitKeepsPlain(trimmed);
    var segments := Split(trimmed);
    LowerTwice(segments[3]);
    Base36HasNoSlash(segments[3]);
  }

  lemma TrimKeepsPlain(s: string)
    requires PlainPath(s)
    ensures PlainPath(TrimSlashes(s))
  {
    TrimLeftKeepsPlain(s);
    TrimRightKeepsPlain(TrimSlashesLeft(s));
  }

  lemma {:induction false} TrimLeftKeepsPlain(s: string)
    requires PlainPath(s)
    ensures PlainPath(TrimSlashesLeft(s))
  {
    if s != "" && s[0] == '/' {
      TrimLeftKeepsPlain(s[1..]);
    }
  }

  lemma {:induction false} TrimRightKeepsPlain(s: string)
    requires PlainPath(s)
    ensures PlainPath(TrimSlashesRight(s))
  {
    if s != "" && s[|s| - 1] == '/' {
      TrimRightKeepsPlain(s[..|s| - 1]);
    }
  }

  lemma PlainParts(s: string)
    requires PlainPath(s)
    ensures PlainPath(Upto(s, '/'))
    ensures From(s, '/') != "" ==> PlainPath(From(s, '/')[1..])
  {
    var head, rest := Upto(s, '/'), From(s, '/');
    UptoFrom(s, '/');
    PlainConcat(head, rest);
  }

  lemma {:induction false} SplitKeepsPlain(s: string)
    requires PlainPath(s)
    ensures forall i :: 0 <= i < |Split(s)| ==> PlainPath(Split(s)[i])
    decreases |s|
  {
    PlainParts(s);
    UptoFrom(s, '/');
    var rest := From(s, '/');
    if rest != "" {
      SplitKeepsPlain(rest[1..]);
    }
  }

  /** Canonical URLs are fixpoints, and two URLs share one exactly when they address the same
      post: the same id up to case, in the same subreddit to the letter. */
  lemma CanonicalIdentifiesThreads(a: string, b: string)
    requires ThreadOf(a).Some? && ThreadOf(b).Some?
    ensures Canonical(Canonical(a).value) == Canonical(a)
    ensures Canonical(a) == Canonical(b) <==> ThreadOf(a) == ThreadOf(b)
  {
    ReadIsValid(a);
    ReadIsValid(b);
    PrintThenRead(ThreadOf(a).value);
    PrintThenRead(ThreadOf(b).value);
  }

  // ---- collecting ------------------------------------------------------------------------

  datatype Hit = Hit(title: string, url: string, content: string, engine: string)

  /** The canonical URLs of the acceptable hits, in order, repeats included. */
  function CanonicalUrls(hits: seq<Hit>): seq<string> {
    if hits == [] then []
    else
      var init, c := CanonicalUrls(hits[..|hits| - 1]), Canonical(hits[|hits| - 1].url);
      if c.Some? then init + [c.value] else init
  }

  lemma CanonicalUrlsSnoc(hits: seq<Hit>, h: Hit)
    ensures var c := Canonical(h.url);
            CanonicalUrls(hits + [h]) == CanonicalUrls(hits) + (if c.Some? then [c.value] else [])
  {
    assert (hits + [h])[..|hits|] == hits;
  }

  /** Canonical addresses can be listed piece by piece, so they keep the order of the hits. */
  lemma {:induction false} CanonicalUrlsConcat(a: seq<Hit>, b: seq<Hit>)
    ensures CanonicalUrls(a + b) == CanonicalUrls(a) + CanonicalUrls(b)
  {
    if b == [] {
      assert a + b == a;
    } else {
      var init, last := b[..|b| - 1], b[|b| - 1];
      assert a + b == (a + init) + [last] && b == init + [last];
      CanonicalUrlsConcat(a, init);
      CanonicalUrlsSnoc(a + init, last);
      CanonicalUrlsSnoc(init, last);
    }
  }

  /** The distinct threads in order of first appearance, cut at the limit. */
  function FirstThreads(hits: seq<Hit>, limit: nat): seq<string> {
    Prefix(Distinct(CanonicalUrls(hits)), limit)
  }

  /** What one more hit does to the threads. */
  function NextThreads(urls: seq<string>, h: Hit, limit: nat): seq<string> {
    var c := Canonical(h.url);
    if |urls| >= limit || c.None? || c.value in urls then urls else urls + [c.value]
  }

  lemma FirstThreadsSnoc(hits: seq<Hit>, h: Hit, limit: nat)
    ensures FirstThreads(hits + [h], limit) == NextThreads(FirstThreads(hits, limit), h, limit)
  {
    assert (hits + [h])[..|hits|] == hits;
    var all, c := CanonicalUrls(hits), Canonical(h.url);
    if c.Some? {
      assert (all + [c.value])[..|all|] == all;
    }
  }

  lemma {:induction false} FirstThreadsFull(hits: seq<Hit>, limit: nat, n: nat)
    requires n <= |hits| && |FirstThreads(hits[..n], limit)| >= limit
    ensures FirstThreads(hits, limit) == FirstThreads(hits[..n], limit)
    decreases |hits| - n
  {
    if n < |hits| {
      FirstThreadsSnoc(hits[..n], hits[n], limit);
      assert hits[..n + 1] == hits[..n] + [hits[n]];
      FirstThreadsFull(hits, limit, n + 1);
    } else {
      assert hits[..n] == hits;
    }
  }

  function ItemFor(h: Hit, url: string, limit: int, i: int): Item {
    Item(h.title, url, h.content, if h.engine == "" then "searxng" else h.engine, h.engine, "post",
         limit - i, "reddit:" + url, url)
  }

  /** Position n holds the first hit that addresses the thread. */
  predicate FirstHit(hits: seq<Hit>, url: string, n: int) {
    0 <= n < |hits| && Canonical(hits[n].url) == Some(url) && forall m :: 0 <= m < n ==> Canonical(hits[m].url) != Some(url)
  }

  /** An item shows a hit under its thread's address. */
  predicate Shows(item: Item, h: Hit, url: string, score: int) {
    && item.title == h.title && item.url == url && item.canonicalUrl == url && item.snippet == h.content
    && item.engine == h.engine && item.source == (if h.engine == "" then "searxng" else h.engine)
    && item.kind == "post" && item.citationId == "reddit:" + url && item.score == score
  }

  /** A result is labelled from the first hit that addresses its thread. */
  ghost predicate FromFirstHit(hits: seq<Hit>, item: Item, url: string, limit: int, i: int) {
    exists n :: FirstHit(hits, url, n) && Shows(item, hits[n], url, limit - i)
  }

  /** `results` label the threads `urls`, in order, each from its first hit. */
  ghost predicate Labelled(hits: seq<Hit>, urls: seq<string>, limit: int, results: seq<Item>) {
    && |results| == |urls| <= limit
    && forall i :: 0 <= i < |urls| ==> FromFirstHit(hits, results[i], urls[i], limit, i)
  }

  lemma LabelledSnoc(hits: seq<Hit>, urls: seq<string>, limit: int, results: seq<Item>, u: string, n: nat)
    requires Labelled(hits, urls, limit, results) && |urls| < limit && FirstHit(hits, u, n)
    ensures Labelled(hits, urls + [u], limit, results + [ItemFor(hits[n], u, limit, |results|)])
  {
    var more, item := urls + [u], ItemFor(hits[n], u, limit, |results|);
    var all := results + [item];
    assert FromFirstHit(hits, item, u, limit, |results|);
    assert forall i :: 0 <= i < |urls| ==> more[i] == urls[i] && all[i] == results[i];
  }

  /** A thread not among the first ones so far, while there is room, was not hit before. */
  lemma UnseenIsFirst(hits: seq<Hit>, n: nat, limit: nat, u: string)
    requires n < |hits| && Canonical(hits[n].url) == Some(u)
    requires |FirstThreads(hits[..n], limit)| < limit && u !in FirstThreads(hits[..n], limit)
    ensures FirstHit(hits, u, n)
  {
    forall m | 0 <= m < n
      ensures Canonical(hits[m].url) != Some(u)
    {
      assert hits[..n][m] == hits[m];
      if Canonical(hits[m].url) == Some(u) {
        HitsAreListed(hits[..n], m);
      }
    }
  }

  lemma {:induction false} HitsAreListed(hits: seq<Hit>, m: nat)
    requires m < |hits| && Canonical(hits[m].url).Some?
    ensures Canonical(hits[m].url).value in CanonicalUrls(hits)
  {
    if m < |hits| - 1 {
      HitsAreListed(hits[..|hits| - 1], m);
    }
  }

  /** What one hit does to the labelled results while there is room. */
  lemma NextHit(hits: seq<Hit>, n: nat, limit: nat, results: seq<Item>)
    requires n < |hits| && |results| < limit
    requires Labelled(hits, FirstThreads(hits[..n], limit), limit, results)
    ensures var urls, c := FirstThreads(hits[..n], limit), Canonical(hits[n].url);
            if c.None? || c.value in urls then FirstThreads(hits[..n + 1], limit) == urls
            else
              && FirstThreads(hits[..n + 1], limit) == urls + [c.value]
              && Labelled(hits, urls + [c.value], limit, results + [ItemFor(hits[n], c.value, limit, |results|)])
  {
    var urls, c := FirstThreads(hits[..n], limit), Canonical(hits[n].url);
    assert hits[..n + 1] == hits[..n] + [hits[n]];
    FirstThreadsSnoc(hits[..n], hits[n], limit);
    if c.Some? && c.value !in urls {
      UnseenIsFirst(hits, n, limit, c.value);
      LabelledSnoc(hits, urls, limit, results, c.value, n);
    }
  }

  /** Labelled threads differ, and their scores fall from the limit to at least one. */
  lemma LabelledDiffer(hits: seq<Hit>, limit: nat, results: seq<Item>)
    requires Labelled(hits, FirstThreads(hits, limit), limit, results)
    ensures forall i, j :: 0 <= i < j < |results| ==>
              results[i].url != results[j].url && results[i].score > results[j].score >= 1
  {
    var urls := FirstThreads(hits, limit);
    FirstThreadsDiffer(hits, limit);
    forall i | 0 <= i < |results|
      ensures results[i].url == urls[i] && results[i].score == limit - i
    {
      assert FromFirstHit(hits, results[i], urls[i], limit, i);
    }
  }

  /** At most `limit` distinct threads, in order of first appearance, each labelled from its
      first hit and scored from the limit strictly down to at least one. */
  method CollectPosts(hits: seq<Hit>, limit: int) returns (results: seq<Item>)
    requires limit >= 1
    ensures Labelled(hits, FirstThreads(hits, limit), limit, results)
    ensures forall i, j :: 0 <= i < j < |results| ==>
              results[i].url != results[j].url && results[i].score > results[j].score >= 1
  {
    results := [];
    var seen: set<string> := {};
    var n := 0;
    while n < |hits|
      invariant 0 <= n <= |hits|
      invariant Labelled(hits, FirstThreads(hits[..n], limit), limit, results)
      invariant forall u :: u in seen <==> u in FirstThreads(hits[..n], limit)
    {
      if |results| >= limit {
        break;
      }
      NextHit(hits, n, limit, results);
      var item := hits[n];
      var canonicalUrl := Canonical(item.url);
      n := n + 1;
      if canonicalUrl.None? {
        continue;
      }
      if canonicalUrl.value in seen {
        continue;
      }
      seen := seen + {canonicalUrl.value};
      results := results + [ItemFor(item, canonicalUrl.value, limit, |results|)];
    }
    if n < |hits| {
      FirstThreadsFull(hits, limit, n);
    } else {
      assert hits[..n] == hits;
    }
    LabelledDiffer(hits, limit, results);
  }

  lemma FirstThreadsDiffer(hits: seq<Hit>, limit: nat)
    ensures var urls := FirstThreads(hits, limit); forall i, j :: 0 <= i < j < |urls| ==> urls[i] != urls[j]
  {
  }
}

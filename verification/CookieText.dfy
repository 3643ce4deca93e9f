/** Cookies as text (aweb/cookie.c): the line that saves a cookie, and the parser of such lines
    and of what servers send.  A parsed line is cut into pieces at the places where the parser
    puts a NUL. */
module CookieText {
  import opened Basics

  datatype Cookie = Cookie(
    name: string, value: string, expires: nat, domain: string, path: string, comment: Option<string>,
    version: int,
    ownDomain: bool,     // the domain was given
    ownPath: bool,       // the path was given
    accept: bool, secure: bool)

  /** Dates as text. */
  datatype Calendar = Calendar(make: nat -> string, scan: string -> nat)

  // ------------------------------------------------------------------------
  // Characters and numbers

  predicate IsSpace(c: char) { c == ' ' || '\t' <= c <= '\r' }

  predicate IsDigit(c: char) { '0' <= c <= '9' }

  function Upper(c: char): char { if 'a' <= c <= 'z' then c - 'a' + 'A' else c }

  function Uppercase(s: string): string {
    if s == "" then "" else [Upper(s[0])] + Uppercase(s[1..])
  }

  /** How far a string goes on without a stop. */
  function Span(s: string, stop: char -> bool): (n: nat)
    ensures n <= |s| && (n < |s| ==> stop(s[n])) && forall i :: 0 <= i < n ==> !stop(s[i])
  {
    if s == "" || stop(s[0]) then 0 else 1 + Span(s[1..], stop)
  }

  function SkipSpaces(s: string): string { s[Span(s, c => !IsSpace(c))..] }

  function Tail(s: string): string { if s == "" then "" else s[1..] }

  function Digit(n: nat): char
    requires n < 10
  {
    '0' + n as char
  }

  function Decimal(n: nat): string {
    if n < 10 then [Digit(n)] else Decimal(n / 10) + [Digit(n % 10)]
  }

  /** As printf does with %d. */
  function PutInt(n: int): string { if n < 0 then "-" + Decimal(-n) else Decimal(n) }

  function Number(s: string, sofar: nat): nat {
    if s == "" || !IsDigit(s[0]) then sofar else Number(s[1..], 10 * sofar + (s[0] - '0') as int)
  }

  function Atol(s: string): int {
    var t := SkipSpaces(s);
    if t != "" && t[0] == '-' then 0 - Number(t[1..], 0)
    else if t != "" && t[0] == '+' then Number(t[1..], 0)
    else Number(t, 0)
  }

  /** Stored in 16 bits. */
  function Short(n: int): int { (n + 0x8000) % 0x1_0000 - 0x8000 }

  // ------------------------------------------------------------------------
  // Printing

  /** The keywords of fields.  Those with a star are for saved lines only. */
  datatype Key = DOMAIN | PATH | COMMENT | MAX_AGE | VERSION | EXPIRES | SECURE | OWN_DOMAIN | OWN_PATH | ACCEPT | OTHER

  function Name(k: Key): string {
    match k
    case DOMAIN => "DOMAIN"
    case PATH => "PATH"
    case COMMENT => "COMMENT"
    case MAX_AGE => "MAX-AGE"
    case VERSION => "VERSION"
    case EXPIRES => "EXPIRES"
    case SECURE => "SECURE"
    case OWN_DOMAIN => "*DOMAIN"
    case OWN_PATH => "*PATH"
    case ACCEPT => "*ACCEPT"
    case OTHER => ""
  }

  /** The keyword that a word is, in upper or lower case. */
  function KeyOf(s: string): Key {
    var k := Uppercase(s);
    if k == Name(DOMAIN) then DOMAIN
    else if k == Name(PATH) then PATH
    else if k == Name(COMMENT) then COMMENT
    else if k == Name(MAX_AGE) then MAX_AGE
    else if k == Name(VERSION) then VERSION
    else if k == Name(EXPIRES) then EXPIRES
    else if k == Name(SECURE) then SECURE
    else if k == Name(OWN_DOMAIN) then OWN_DOMAIN
    else if k == Name(OWN_PATH) then OWN_PATH
    else if k == Name(ACCEPT) then ACCEPT
    else OTHER
  }

  /** One item of a line after name and value. */
  datatype Item = Quoted(key: Key, val: string) | Flag(key: Key)
  {
    function Text(): string { if Quoted? then Name(key) + "=\"" + val + "\"" else Name(key) }
  }

  function Body(items: seq<Item>): string {
    if items == [] then "" else items[0].Text() + if |items| == 1 then "" else "; " + Body(items[1..])
  }

  function Items(c: Cookie, cal: Calendar): seq<Item> {
    [Quoted(if c.ownDomain then DOMAIN else OWN_DOMAIN, c.domain)]
    + ([Quoted(if c.ownPath then PATH else OWN_PATH, c.path)] + ItemsAfterPlace(c, cal))
  }

  function ItemsAfterPlace(c: Cookie, cal: Calendar): seq<Item> {
    (if c.secure then [Flag(SECURE)] else []) + ItemsFromComment(c, cal)
  }

  function ItemsFromComment(c: Cookie, cal: Calendar): seq<Item> {
    (if c.comment.Some? then [Quoted(COMMENT, c.comment.value)] else [])
    + ((if c.accept then [Flag(ACCEPT)] else []) + ItemsAtEnd(c, cal))
  }

  function ItemsAtEnd(c: Cookie, cal: Calendar): seq<Item> {
    (if c.version != 0 then [Quoted(VERSION, PutInt(c.version))] else []) + [Quoted(EXPIRES, cal.make(c.expires))]
  }

  /** The line that saves a cookie. */
  function Line(c: Cookie, cal: Calendar): string {
    c.name + ("=" + (c.value + ("; " + Body(Items(c, cal)))))
  }

  // ------------------------------------------------------------------------
  // Parsing

  /** After a keyword or name: spaces. */
  function AfterWord(s: string): string {
    if s != "" && IsSpace(s[0]) then SkipSpaces(s[1..]) else s
  }

  predicate EndsWord(c: char) { IsSpace(c) || c == ',' || c == ';' || c == '=' }

  predicate EndsToken(c: char) { IsSpace(c) || c == ',' || c == ';' }

  predicate IsQuote(c: char) { c == '"' }

  /** Past a quoted string, of which the opening quote is gone already. */
  function PastQuote(s: string): string { Tail(s[Span(s, IsQuote)..]) }

  /** Where the value of the cookie ends. */
  function PastValue(s: string): string {
    var t := SkipSpaces(s);
    if t != "" && t[0] == '"' then PastQuote(t[1..]) else t[Span(t, EndsToken)..]
  }

  lemma PastValueSuffix(s: string)
    ensures |PastValue(s)| <= |s| && PastValue(s) == s[|s| - |PastValue(s)|..]
  {
  }

  /** name=value at the start of a line, and what comes after it. */
  function NameValue(s: string): (Option<(string, string)>, string) {
    var t := SkipSpaces(s);
    var n := Span(t, EndsWord);
    var u := AfterWord(t[n..]);
    if t == "" then (None, "")
    else if u == "" || u[0] != '=' then (None, u)
    else
      var v := u[1..];
      var rest := PastValue(v);
      PastValueSuffix(v);
      (Some((t[..n], v[..|v| - |rest|])), Tail(rest))
  }

  /** The keyword of the next field, past separators, and what comes after it. */
  function Keyword(s: string): (string, string) {
    var t := s[Span(s, c => !EndsToken(c))..];
    var n := Span(t, EndsWord);
    (t[..n], AfterWord(t[n..]))
  }

  /** The value of a field, whose keyword and equals sign are gone already. */
  function FieldValue(kwd: string, s: string): (string, string) {
    var v := SkipSpaces(s);
    if v != "" && v[0] == '"' then (v[1..][..Span(v[1..], IsQuote)], PastQuote(v[1..]))
    else
      var m := if KeyOf(kwd) == EXPIRES then Span(v, c => c == ';') else Span(v, c => c == ',' || c == ';');
      (v[..m], Tail(v[m..]))
  }

  /** One more field: its keyword, its value, and what comes after it. */
  function NextField(s: string): (string, string, string) {
    var (kwd, u) := Keyword(s);
    if u != "" && u[0] == '=' then var (val, rest) := FieldValue(kwd, u[1..]); (kwd, val, rest)
    else (kwd, "", if u != "" && (u[0] == ',' || u[0] == ';') then u[1..] else u)
  }

  lemma KeywordShorter(s: string)
    requires s != ""
    ensures |Keyword(s).1| <= |s|
    ensures |Keyword(s).1| == |s| ==> Keyword(s).1[0] == '='
  {
    var t := s[Span(s, c => !EndsToken(c))..];
    if t != "" {
      assert !EndsToken(t[0]);
    }
  }

  lemma NextFieldShorter(s: string)
    requires s != ""
    ensures |NextField(s).2| < |s|
  {
    KeywordShorter(s);
    var (kwd, u) := Keyword(s);
    if u != "" {
      FieldValueShorter(kwd, u[1..]);
    }
  }

  lemma FieldValueShorter(kwd: string, s: string)
    ensures |FieldValue(kwd, s).1| <= |s|
  {
  }

  function Fields(s: string): seq<(string, string)>
    decreases |s|
  {
    if s == "" then []
    else
      NextFieldShorter(s);
      var (kwd, val, rest) := NextField(s);
      [(kwd, val)] + Fields(rest)
  }

  /** What the fields of a line say, each field overruling earlier ones. */
  datatype Attributes = Attributes(
    domain: Option<string>, path: Option<string>, comment: Option<string>, maxage: Option<string>,
    version: Option<string>, expires: Option<string>,
    ownDomain: bool, ownPath: bool, accept: bool, secure: bool)

  const NO_ATTRIBUTES := Attributes(None, None, None, None, None, None, false, false, false, false)

  /** `own`: the line is one that the program saved itself. */
  function Attribute(a: Attributes, k: Key, val: string, own: bool): Attributes {
    match k
    case DOMAIN => a.(domain := Some(val), ownDomain := true)
    case PATH => a.(path := Some(val), ownPath := true)
    case COMMENT => a.(comment := Some(val))
    case MAX_AGE => a.(maxage := Some(val))
    case VERSION => a.(version := Some(val))
    case EXPIRES => a.(expires := Some(val))
    case SECURE => a.(secure := true)
    case OWN_DOMAIN => if own then a.(domain := Some(val)) else a
    case OWN_PATH => if own then a.(path := Some(val)) else a
    case ACCEPT => if own then a.(accept := true) else a
    case OTHER => a
  }

  function Collect(a: Attributes, fs: seq<(string, string)>, own: bool): Attributes
    decreases |fs|
  {
    if fs == [] then a else Collect(Attribute(a, KeyOf(fs[0].0), fs[0].1, own), fs[1..], own)
  }

  function ExpiryOf(a: Attributes, cal: Calendar, today: nat): nat {
    if a.maxage.Some? then (Atol(a.maxage.value) + today) % 0x1_0000_0000
    else if a.expires.Some? then cal.scan(a.expires.value) else 0
  }

  /** The cookie that a line of its own makes the program store, if any. */
  function Stored(nv: Option<(string, string)>, a: Attributes, cal: Calendar, today: nat, barred: string -> bool): Option<Cookie> {
    if nv.None? || a.domain.None? || barred(a.domain.value) || a.path.None? then None
    else Some(Cookie(nv.value.0, nv.value.1, ExpiryOf(a, cal, today), a.domain.value, a.path.value, a.comment,
                     if a.version.Some? then Short(Atol(a.version.value)) else 0,
                     a.ownDomain, a.ownPath, a.accept, a.secure))
  }

  /** Name and value of a line, and what its fields say. */
  function Analyse(s: string, own: bool): (Option<(string, string)>, Attributes) {
    var (nv, rest) := NameValue(s);
    (nv, Collect(NO_ATTRIBUTES, Fields(rest), own))
  }

  /** Parse a line that the program saved itself. */
  function Parse(s: string, cal: Calendar, today: nat, barred: string -> bool): Option<Cookie> {
    var (nv, a) := Analyse(s, true);
    Stored(nv, a, cal, today, barred)
  }

  // ------------------------------------------------------------------------
  // Numbers come back

  lemma {:induction false} NumberOfDigits(a: string, t: string, sofar: nat)
    requires forall c <- a :: IsDigit(c)
    ensures Number(a + t, sofar) == Number(t, Number(a, sofar))
    decreases |a|
  {
    if a == "" {
      assert a + t == t;
    } else {
      assert (a + t)[1..] == a[1..] + t && a[0] in a;
      NumberOfDigits(a[1..], t, 10 * sofar + (a[0] - '0') as int);
    }
  }

  lemma {:induction false} DecimalBack(n: nat)
    ensures Decimal(n) != "" && (forall c <- Decimal(n) :: IsDigit(c)) && Number(Decimal(n), 0) == n
  {
    if n < 10 {
      assert Decimal(n)[1..] == "";
    } else {
      DecimalBack(n / 10);
      NumberOfDigits(Decimal(n / 10), [Digit(n % 10)], 0);
      assert [Digit(n % 10)][1..] == "";
    }
  }

  lemma AtolBack(n: int)
    ensures Atol(PutInt(n)) == n && '"' !in PutInt(n)
  {
    var d := if n < 0 then -n else n;
    DecimalBack(d);
    var s := PutInt(n);
    assert s[0..] == s && ("-" + Decimal(d))[1..] == Decimal(d);
    assert Decimal(d)[0] in Decimal(d);
  }

  // ------------------------------------------------------------------------
  // Saved lines come back

  predicate Quotable(s: string) { '"' !in s }

  predicate IsWord(s: string) { forall c <- s :: !EndsWord(c) }

  predicate Separates(s: string) { forall c <- s :: EndsToken(c) }

  lemma {:induction false} SpanIs(a: string, t: string, stop: char -> bool)
    requires forall c <- a :: !stop(c)
    requires t == "" || stop(t[0])
    ensures Span(a + t, stop) == |a|
  {
    if a != "" {
      assert (a + t)[1..] == a[1..] + t && a[0] in a;
      SpanIs(a[1..], t, stop);
    } else {
      assert a + t == t;
    }
  }

  lemma KeywordBack(sep: string, kwd: string, t: string)
    requires Separates(sep) && IsWord(kwd) && kwd != "" && t != "" && (t[0] == '=' || t[0] == ';')
    ensures Keyword(sep + kwd + t) == (kwd, t)
  {
    assert sep + kwd + t == sep + (kwd + t);
    assert kwd[0] in kwd;
    SpanIs(sep, kwd + t, c => !EndsToken(c));
    assert (sep + (kwd + t))[|sep|..] == kwd + t;
    SpanIs(kwd, t, EndsWord);
    assert (kwd + t)[..|kwd|] == kwd && (kwd + t)[|kwd|..] == t;
  }

  lemma QuotedBack(kwd: string, val: string, t: string)
    requires Quotable(val)
    ensures FieldValue(kwd, "\"" + val + "\"" + t) == (val, t)
  {
    var s := "\"" + val + "\"" + t;
    assert s[0..] == s && s[1..] == val + ("\"" + t);
    SpanIs(val, "\"" + t, IsQuote);
    assert s[1..][..|val|] == val && s[1..][|val|..] == "\"" + t && ("\"" + t)[1..] == t;
  }

  lemma NextQuoted(sep: string, kwd: string, val: string, t: string)
    requires Separates(sep) && IsWord(kwd) && kwd != "" && Quotable(val)
    ensures NextField(sep + (kwd + "=\"" + val + "\"") + t) == (kwd, val, t)
  {
    var u := "=" + ("\"" + val + "\"" + t);
    assert sep + (kwd + "=\"" + val + "\"") + t == sep + kwd + u;
    KeywordBack(sep, kwd, u);
    assert u[1..] == "\"" + val + "\"" + t;
    QuotedBack(kwd, val, t);
  }

  lemma NextFlag(sep: string, kwd: string, t: string)
    requires Separates(sep) && IsWord(kwd) && kwd != ""
    ensures NextField(sep + kwd + (";" + t)) == (kwd, "", t)
  {
    KeywordBack(sep, kwd, ";" + t);
    assert (";" + t)[1..] == t;
  }

  predicate Printable(i: Item) { !i.key.OTHER? && (i.Quoted? ==> Quotable(i.val)) }

  function Read(i: Item): (string, string) { (Name(i.key), if i.Quoted? then i.val else "") }

  function ReadAll(items: seq<Item>): seq<(string, string)> {
    if items == [] then [] else [Read(items[0])] + ReadAll(items[1..])
  }

  lemma Separators()
    ensures Separates("; ") && Separates(" ")
  {
  }

  lemma PrintableTail(items: seq<Item>)
    requires items != [] && forall i <- items :: Printable(i)
    ensures forall i <- items[1..] :: Printable(i)
    ensures |items| > 1 ==> items[1..][|items| - 2] == items[|items| - 1]
  {
  }

  ghost predicate Closed(items: seq<Item>) {
    items != [] && items[|items| - 1].Quoted? && forall i <- items :: Printable(i)
  }

  lemma ClosedTail(items: seq<Item>)
    requires Closed(items) && |items| > 1
    ensures Closed(items[1..]) && Printable(items[0])
  {
    PrintableTail(items);
  }

  lemma {:induction false} FieldsBack(sep: string, items: seq<Item>)
    requires Separates(sep) && Closed(items)
    ensures Fields(sep + Body(items)) == ReadAll(items)
    decreases |items|
  {
    if |items| == 1 {
      LastField(sep, items);
    } else {
      var rest, more := items[1..], Body(items[1..]);
      var next := if items[0].Quoted? then "; " else " ";
      ClosedTail(items);
      Separators();
      OneField(sep, items[0], more);
      FieldsBack(next, rest);
    }
  }

  lemma LastField(sep: string, items: seq<Item>)
    requires Separates(sep) && Closed(items) && |items| == 1
    ensures Fields(sep + Body(items)) == ReadAll(items)
  {
    var i := items[0];
    assert Printable(i) && items[1..] == [];
    NameIsWord(i.key);
    assert sep + Body(items) == sep + i.Text() + "";
    NextQuoted(sep, Name(i.key), i.val, "");
  }

  lemma OneField(sep: string, i: Item, more: string)
    requires Separates(sep) && Printable(i)
    ensures Fields(sep + (i.Text() + ("; " + more))) == [Read(i)] + Fields((if i.Quoted? then "; " else " ") + more)
  {
    NameIsWord(i.key);
    if i.Quoted? {
      assert sep + (i.Text() + ("; " + more)) == sep + i.Text() + ("; " + more);
      NextQuoted(sep, Name(i.key), i.val, "; " + more);
    } else {
      assert sep + (i.Text() + ("; " + more)) == sep + Name(i.key) + (";" + (" " + more));
      NextFlag(sep, Name(i.key), " " + more);
    }
  }

  lemma NameIsWord(k: Key)
    requires !k.OTHER?
    ensures IsWord(Name(k)) && Name(k) != ""
  {
  }

  /** After its leading spaces, the value is a quoted string or has no separator in it. */
  predicate KeepsValue(v: string) {
    var w := SkipSpaces(v);
    if w != "" && w[0] == '"' then |w| >= 2 && Span(w[1..], IsQuote) == |w| - 2
    else forall c <- w :: !EndsToken(c)
  }

  lemma SkipSpacesOf(v: string, t: string)
    requires t != "" && !IsSpace(t[0])
    ensures SkipSpaces(v + t) == SkipSpaces(v) + t
  {
    var n := Span(v, c => !IsSpace(c));
    assert v + t == v[..n] + (v[n..] + t);
    SpanIs(v[..n], v[n..] + t, c => !IsSpace(c));
  }

  lemma SpanSplit(a: string, t: string, stop: char -> bool)
    ensures Span(a + t, stop) == if Span(a, stop) < |a| then Span(a, stop) else |a| + Span(t, stop)
  {
    var n := Span(a, stop);
    if n < |a| {
      assert a + t == a[..n] + (a[n..] + t);
      SpanIs(a[..n], a[n..] + t, stop);
    } else {
      var m := Span(t, stop);
      assert a + t == (a + t[..m]) + t[m..];
      SpanIs(a + t[..m], t[m..], stop);
    }
  }

  lemma QuotedEnds(w: string, u: string)
    requires w != "" && u != ""
    ensures PastQuote(w[1..] + u) == u <==> Span(w[1..], IsQuote) == |w| - 2
  {
    var x := w[1..];
    SpanSplit(x, u, IsQuote);
    var n := Span(x, IsQuote);
    if n < |x| {
      assert (x + u)[n..] == x[n..] + u && PastQuote(x + u) == x[n + 1..] + u;
      assert |PastQuote(x + u)| == |x| - n - 1 + |u|;
      if n == |x| - 1 {
        assert x[n + 1..] + u == u;
      }
    } else {
      assert |PastQuote(x + u)| < |u|;
    }
  }

  lemma TokenEnds(w: string, u: string)
    requires u != "" && EndsToken(u[0])
    ensures (w + u)[Span(w + u, EndsToken)..] == u <==> forall c <- w :: !EndsToken(c)
  {
    SpanSplit(w, u, EndsToken);
    var n := Span(w, EndsToken);
    if n < |w| {
      assert w[n] in w && |(w + u)[n..]| > |u|;
    } else {
      assert (w + u)[|w|..] == u;
    }
  }

  /** The value of a cookie ends at the semicolon after it exactly if it can be told from it. */
  lemma ValueEndsExactly(v: string, u: string)
    requires u != "" && u[0] == ';'
    ensures PastValue(v + u) == u <==> KeepsValue(v)
  {
    var w := SkipSpaces(v);
    SkipSpacesOf(v, u);
    if w != "" && w[0] == '"' {
      assert (w + u)[1..] == w[1..] + u;
      QuotedEnds(w, u);
    } else {
      TokenEnds(w, u);
    }
  }

  lemma NameBack(name: string, u: string)
    requires IsWord(name) && u != "" && u[0] == '='
    ensures var s := name + u;
            SkipSpaces(s) == s && Span(s, EndsWord) == |name| && s[..|name|] == name && AfterWord(s[|name|..]) == u
  {
    var s := name + u;
    if name != "" {
      assert name[0] in name;
    }
    assert s[0..] == s && s[|name|..] == u;
    SpanIs(name, u, EndsWord);
  }

  lemma NameValueBack(name: string, v: string, u: string)
    requires IsWord(name) && KeepsValue(v) && u != "" && u[0] == ';'
    ensures NameValue(name + ("=" + (v + u))) == (Some((name, v)), u[1..])
  {
    var x := v + u;
    NameBack(name, "=" + x);
    assert ("=" + x)[1..] == x;
    ValueEndsExactly(v, u);
    assert x[..|x| - |u|] == v;
  }

  /** Dates come back, and are printed without quotes. */
  ghost predicate Faithful(cal: Calendar) {
    forall n: nat :: cal.scan(cal.make(n)) == n && Quotable(cal.make(n))
  }

  predicate Savable(c: Cookie) {
    && IsWord(c.name) && KeepsValue(c.value) && Quotable(c.domain) && Quotable(c.path)
    && (c.comment.Some? ==> Quotable(c.comment.value)) && -0x8000 <= c.version < 0x8000
  }

  lemma {:induction false} CollectBoth(a: Attributes, fs: seq<(string, string)>, gs: seq<(string, string)>, own: bool)
    ensures Collect(a, fs + gs, own) == Collect(Collect(a, fs, own), gs, own)
    decreases |fs|
  {
    if fs == [] {
      assert fs + gs == gs;
    } else {
      assert (fs + gs)[1..] == fs[1..] + gs;
      CollectBoth(Attribute(a, KeyOf(fs[0].0), fs[0].1, own), fs[1..], gs, own);
    }
  }

  lemma {:induction false} ReadAllBoth(is_: seq<Item>, js: seq<Item>)
    ensures ReadAll(is_ + js) == ReadAll(is_) + ReadAll(js)
  {
    if is_ == [] {
      assert is_ + js == js;
    } else {
      assert (is_ + js)[1..] == is_[1..] + js;
      ReadAllBoth(is_[1..], js);
    }
  }

  /** What an item says, alone. */
  function Say(a: Attributes, items: seq<Item>): Attributes { Collect(a, ReadAll(items), true) }

  lemma SayBoth(a: Attributes, is_: seq<Item>, js: seq<Item>)
    ensures Say(a, is_ + js) == Say(Say(a, is_), js)
  {
    ReadAllBoth(is_, js);
    CollectBoth(a, ReadAll(is_), ReadAll(js), true);
  }

  lemma SayOne(a: Attributes, i: Item)
    requires !i.key.OTHER?
    ensures Say(a, [i]) == Attribute(a, i.key, if i.Quoted? then i.val else "", true)
  {
    KeyBack(i.key);
    assert [i][1..] == [] && [Read(i)][1..] == [];
    assert ReadAll([i]) == [Read(i)] + ReadAll([]);
    assert Collect(a, [Read(i)], true) == Collect(Attribute(a, i.key, Read(i).1, true), [], true);
  }

  lemma {:induction false} UppercaseIs(s: string)
    requires forall i :: 0 <= i < |s| ==> !('a' <= s[i] <= 'z')
    ensures Uppercase(s) == s
  {
    if s != "" {
      UppercaseIs(s[1..]);
    }
  }

  lemma NameIsUpper(k: Key)
    ensures Uppercase(Name(k)) == Name(k)
  {
    UppercaseIs(Name(k));
  }

  lemma NamesDiffer(k: Key, l: Key)
    requires Name(k) == Name(l)
    ensures k == l
  {
    var s := Name(k);
    assert |s| == |Name(l)| && (s != "" ==> s[0] == Name(l)[0] && s[|s| - 1] == Name(l)[|s| - 1] && s[|s| / 2] == Name(l)[|s| / 2]);
  }

  lemma KeyBack(k: Key)
    requires !k.OTHER?
    ensures KeyOf(Name(k)) == k
  {
    NameIsUpper(k);
    forall l
      ensures Name(k) == Name(l) ==> k == l
    {
      if Name(k) == Name(l) {
        NamesDiffer(k, l);
      }
    }
  }

  // ------------------------------------------------------------------------
  // A whole line

  /** What the line of a cookie says. */
  function Said(c: Cookie, cal: Calendar): Attributes {
    Attributes(Some(c.domain), Some(c.path), c.comment, None, if c.version != 0 then Some(PutInt(c.version)) else None,
               Some(cal.make(c.expires)), c.ownDomain, c.ownPath, c.accept, c.secure)
  }

  lemma SayIf(a: Attributes, b: bool, i: Item)
    requires !i.key.OTHER?
    ensures Say(a, if b then [i] else []) == if b then Attribute(a, i.key, if i.Quoted? then i.val else "", true) else a
  {
    SayOne(a, i);
  }

  lemma ItemsSay(c: Cookie, cal: Calendar)
    ensures Say(NO_ATTRIBUTES, Items(c, cal)) == Said(c, cal)
  {
    var domain := Quoted(if c.ownDomain then DOMAIN else OWN_DOMAIN, c.domain);
    var path := Quoted(if c.ownPath then PATH else OWN_PATH, c.path);
    var a := Say(NO_ATTRIBUTES, [domain]);
    var b := Say(a, [path]);
    SayOne(NO_ATTRIBUTES, domain);
    SayOne(a, path);
    var options := ItemsAfterPlace(c, cal);
    SayBoth(NO_ATTRIBUTES, [domain], [path] + options);
    SayBoth(a, [path], options);
    OptionsSay(b, c, cal);
  }

  lemma OptionsSay(a: Attributes, c: Cookie, cal: Calendar)
    ensures Say(a, ItemsAfterPlace(c, cal)) ==
            a.(secure := a.secure || c.secure, comment := if c.comment.Some? then c.comment else a.comment,
               accept := a.accept || c.accept, version := if c.version != 0 then Some(PutInt(c.version)) else a.version,
               expires := Some(cal.make(c.expires)))
  {
    var secure := if c.secure then [Flag(SECURE)] else [];
    SayIf(a, c.secure, Flag(SECURE));
    SayBoth(a, secure, ItemsFromComment(c, cal));
    CommentSays(Say(a, secure), c, cal);
  }

  lemma CommentSays(a: Attributes, c: Cookie, cal: Calendar)
    ensures Say(a, ItemsFromComment(c, cal)) ==
            a.(comment := if c.comment.Some? then c.comment else a.comment, accept := a.accept || c.accept,
               version := if c.version != 0 then Some(PutInt(c.version)) else a.version, expires := Some(cal.make(c.expires)))
  {
    var i := Quoted(COMMENT, if c.comment.Some? then c.comment.value else "");
    var comment, accept := if c.comment.Some? then [i] else [], if c.accept then [Flag(ACCEPT)] else [];
    var b := Say(a, comment);
    SayIf(a, c.comment.Some?, i);
    SayBoth(a, comment, accept + ItemsAtEnd(c, cal));
    SayIf(b, c.accept, Flag(ACCEPT));
    SayBoth(b, accept, ItemsAtEnd(c, cal));
    EndSays(Say(b, accept), c, cal);
  }

  lemma EndSays(a: Attributes, c: Cookie, cal: Calendar)
    ensures Say(a, ItemsAtEnd(c, cal)) ==
            a.(version := if c.version != 0 then Some(PutInt(c.version)) else a.version, expires := Some(cal.make(c.expires)))
  {
    var version, expires := Quoted(VERSION, PutInt(c.version)), Quoted(EXPIRES, cal.make(c.expires));
    SayIf(a, c.version != 0, version);
    var b := Say(a, if c.version != 0 then [version] else []);
    SayBoth(a, if c.version != 0 then [version] else [], [expires]);
    SayOne(b, expires);
  }

  lemma ClosedMore(b: bool, i: Item, items: seq<Item>)
    requires Closed(items) && (b ==> Printable(i))
    ensures Closed((if b then [i] else []) + items)
  {
    var all := (if b then [i] else []) + items;
    assert all[|all| - 1] == items[|items| - 1];
  }

  lemma ItemsClosed(c: Cookie, cal: Calendar)
    requires Savable(c) && Faithful(cal)
    ensures Closed(Items(c, cal))
  {
    AtolBack(c.version);
    var last := [Quoted(EXPIRES, cal.make(c.expires))];
    var s3 := ItemsAtEnd(c, cal);
    ClosedMore(c.version != 0, Quoted(VERSION, PutInt(c.version)), last);
    var s2 := (if c.accept then [Flag(ACCEPT)] else []) + s3;
    ClosedMore(c.accept, Flag(ACCEPT), s3);
    var comment := Quoted(COMMENT, if c.comment.Some? then c.comment.value else "");
    var s1 := (if c.comment.Some? then [comment] else []) + s2;
    ClosedMore(c.comment.Some?, comment, s2);
    var options := ItemsAfterPlace(c, cal);
    ClosedMore(c.secure, Flag(SECURE), s1);
    var path := Quoted(if c.ownPath then PATH else OWN_PATH, c.path);
    ClosedMore(true, path, options);
    ClosedMore(true, Quoted(if c.ownDomain then DOMAIN else OWN_DOMAIN, c.domain), [path] + options);
  }

  lemma FieldsOfLine(items: seq<Item>, rest: string)
    requires Closed(items) && rest == " " + Body(items)
    ensures Fields(rest) == ReadAll(items)
  {
    Separators();
    FieldsBack(" ", items);
  }

  lemma AfterSemicolon(body: string)
    ensures ("; " + body)[0] == ';' && ("; " + body)[1..] == " " + body
  {
  }

  lemma StoredIs(cal: Calendar, today: nat, barred: string -> bool, c: Cookie)
    requires cal.scan(cal.make(c.expires)) == c.expires && Atol(PutInt(c.version)) == c.version && -0x8000 <= c.version < 0x8000
    requires !barred(c.domain)
    ensures Stored(Some((c.name, c.value)), Said(c, cal), cal, today, barred) == Some(c)
  {
  }

  /** Parsing the line that saves a cookie gives the cookie back, with every field and flag. */
  lemma LineParses(c: Cookie, cal: Calendar, today: nat, barred: string -> bool)
    requires Savable(c) && Faithful(cal) && !barred(c.domain)
    ensures Parse(Line(c, cal), cal, today, barred) == Some(c)
  {
    var items := Items(c, cal);
    ItemsClosed(c, cal);
    AfterSemicolon(Body(items));
    NameValueBack(c.name, c.value, "; " + Body(items));
    FieldsOfLine(items, " " + Body(items));
    ItemsSay(c, cal);
    AtolBack(c.version);
    StoredIs(cal, today, barred, c);
  }
}

/**
 * Paging: a user's organisations by an offset written in decimal, an organisation's members
 * by a has-more flag, and the financial view of the members.  The rows a query returns are
 * one sequence in the order of the query; nobody else writes between two pages.
 */
module Paging {
  import opened Prelude

  // ------------------------------------------------------- offsets written in decimal

  predicate Digit(c: char) { '0' <= c <= '9' }

  predicate Blank(c: char) { c == ' ' || '\t' <= c <= '\r' || '\U{1c}' <= c <= '\U{1f}' }

  /** `str(n)` of a non-negative number. */
  function Print(n: nat): (s: string)
    ensures s != "" && forall i :: 0 <= i < |s| ==> Digit(s[i])
  {
    (if n < 10 then "" else Print(n / 10)) + [('0' as int + n % 10) as char]
  }

  function Trim(s: string): string
    decreases |s|
  {
    if s != "" && Blank(s[0]) then Trim(s[1..])
    else if s != "" && Blank(s[|s| - 1]) then Trim(s[..|s| - 1])
    else s
  }

  /** Digits, single underscores between them allowed. */
  function ParseDigits(s: string): Option<nat>
    decreases |s|
  {
    if s == "" || !Digit(s[|s| - 1]) then None
    else
      var last := s[|s| - 1] as int - '0' as int;
      if |s| == 1 then Some(last)
      else
        match ParseDigits(if s[|s| - 2] == '_' then s[..|s| - 2] else s[..|s| - 1])
        case None => None
        case Some(front) => Some(10 * front + last)
  }

  /** `int(s)` on ASCII text; None is the ValueError. */
  function ParseInt(s: string): Option<int> {
    var t := Trim(s);
    var signed := t != "" && (t[0] == '-' || t[0] == '+');
    var digits := ParseDigits(if signed then t[1..] else t);
    if digits.None? then None
    else
      var n: int := digits.value;
      Some(if signed && t[0] == '-' then -n else n)
  }

  lemma {:induction false} ParsePrint(n: nat)
    ensures ParseDigits(Print(n)) == Some(n) && ParseInt(Print(n)) == Some(n)
  {
    var s := Print(n);
    assert Digit(s[0]) && Digit(s[|s| - 1]);
    assert Trim(s) == s;
    if n >= 10 {
      ParsePrint(n / 10);
      var front := Print(n / 10);
      assert s[..|s| - 1] == front && s[|s| - 2] == front[|front| - 1];
    }
  }

  /** Digits are accepted if and only if they begin and end with one, and no two underscores meet. */
  lemma {:induction false} ParseDigitsIff(s: string)
    ensures ParseDigits(s).Some? <==>
      && s != "" && s[0] != '_' && s[|s| - 1] != '_'
      && (forall i :: 0 <= i < |s| ==> '0' <= s[i] <= '9' || s[i] == '_')
      && (forall i :: 0 < i < |s| ==> s[i - 1] != '_' || s[i] != '_')
    decreases |s|
  {
    if |s| > 1 && Digit(s[|s| - 1]) {
      var front := if s[|s| - 2] == '_' then s[..|s| - 2] else s[..|s| - 1];
      ParseDigitsIff(front);
      assert forall i :: 0 <= i < |front| ==> front[i] == s[i];
    }
  }

  lemma OneMoreDigit(front: string, gap: string, d: char)
    requires ParseDigits(front).Some? && (gap == "" || gap == "_") && Digit(d)
    ensures ParseDigits(front + gap + [d]) == Some(10 * ParseDigits(front).value + (d as int - '0' as int))
  {
    var s := front + gap + [d];
    assert s[..|front|] == front && s[|s| - 2] == if gap == "" then front[|front| - 1] else '_';
  }

  lemma LastDigit(s: string) returns (front: string, gap: string, d: char)
    requires ParseDigits(s).Some? && |s| > 1
    ensures s == front + gap + [d] && |front| < |s| && (gap == "" || gap == "_") && Digit(d)
    ensures ParseDigits(front).Some?
  {
    gap, d := if s[|s| - 2] == '_' then "_" else "", s[|s| - 1];
    front := s[..|s| - 1 - |gap|];
  }

  lemma Regroup(a: string, front: string, gap: string, last: string)
    ensures a + (front + gap + last) == a + front + gap + last
  {
  }

  /** An underscore between digits changes nothing. */
  lemma {:induction false} UnderscoreCountsNothing(a: string, b: string)
    requires ParseDigits(a).Some? && ParseDigits(b).Some?
    ensures ParseDigits(a + "_" + b) == ParseDigits(a + b) != None
    decreases |b|
  {
    hide ParseDigits;
    ParseDigitsIff(b);
    if |b| == 1 {
      OneMoreDigit(a, "", b[0]);
      OneMoreDigit(a, "_", b[0]);
      assert a + b == a + "" + [b[0]] && b == [b[0]];
    } else {
      var front, gap, d := LastDigit(b);
      UnderscoreCountsNothing(a, front);
      OneMoreDigit(a + front, gap, d);
      OneMoreDigit(a + "_" + front, gap, d);
      Regroup(a, front, gap, [d]);
      Regroup(a + "_", front, gap, [d]);
    }
  }

  /** The characters that `int` ignores on both sides of a number, by their codes. */
  predicate AllBlank(s: string) {
    forall i :: 0 <= i < |s| ==> s[i] as int in {9, 10, 11, 12, 13, 28, 29, 30, 31, 32}
  }

  lemma {:induction false} TrimBetween(pre: string, t: string, post: string)
    requires AllBlank(pre) && AllBlank(post) && t != "" && !Blank(t[0]) && !Blank(t[|t| - 1])
    ensures Trim(pre + t + post) == t
    decreases |pre| + |post|
  {
    var s := pre + t + post;
    if pre != "" {
      assert s[0] == pre[0] && s[1..] == pre[1..] + t + post;
      TrimBetween(pre[1..], t, post);
    } else if post != "" {
      var last := |post| - 1;
      assert s[0] == t[0] && s[|s| - 1] == post[last] && s[..|s| - 1] == pre + t + post[..last];
      TrimBetween(pre, t, post[..last]);
    } else {
      assert s == t;
    }
  }

  lemma {:induction false} TrimmedAway(s: string) returns (i: nat, j: nat)
    ensures i <= j <= |s| && Trim(s) == s[i..j] && forall k :: 0 <= k < i || j <= k < |s| ==> Blank(s[k])
    decreases |s|
  {
    i, j := 0, |s|;
    if s != "" && Blank(s[0]) {
      var rest := s[1..];
      i, j := TrimmedAway(rest);
      assert rest[i..j] == s[i + 1..j + 1];
      i, j := i + 1, j + 1;
      forall k | 0 <= k < i || j <= k < |s| ensures Blank(s[k]) {
        if k > 0 { assert s[k] == rest[k - 1]; }
      }
    } else if s != "" && Blank(s[|s| - 1]) {
      var rest := s[..|s| - 1];
      i, j := TrimmedAway(rest);
      assert rest[i..j] == s[i..j];
      forall k | 0 <= k < i || j <= k < |s| ensures Blank(s[k]) {
        if k < |s| - 1 { assert s[k] == rest[k]; }
      }
    }
  }

  /** `text` is `digits` with an optional sign before it and blanks around both. */
  predicate Written(text: string, pre: string, sign: string, digits: string, post: string) {
    && text == pre + (sign + digits) + post && AllBlank(pre) && AllBlank(post)
    && (sign == "" || sign == "+" || sign == "-")
  }

  /** Such a text is the number that the digits and the sign say. */
  lemma ParseWritten(text: string, pre: string, sign: string, digits: string, post: string)
    requires Written(text, pre, sign, digits, post) && ParseDigits(digits).Some?
    ensures
      var n: int := ParseDigits(digits).value;
      ParseInt(text) == Some(if sign == "-" then -n else n)
  {
    ParseDigitsIff(digits);
    var t := sign + digits;
    assert t[|t| - 1] == digits[|digits| - 1];
    assert t[|sign|..] == digits && t[0] == if sign == "" then digits[0] else sign[0];
    TrimBetween(pre, t, post);
  }

  lemma BlanksAround(s: string, i: nat, j: nat)
    requires i <= j <= |s| && forall k :: 0 <= k < i || j <= k < |s| ==> Blank(s[k])
    ensures AllBlank(s[..i]) && AllBlank(s[j..]) && s == s[..i] + s[i..j] + s[j..]
  {
    forall k | 0 <= k < |s| - j ensures s[j..][k] as int in {9, 10, 11, 12, 13, 28, 29, 30, 31, 32} {
      assert Blank(s[j + k]);
    }
  }

  lemma SignApart(t: string) returns (sign: string, digits: string)
    ensures t == sign + digits && (sign == "" || sign == "+" || sign == "-")
    ensures digits == if t != "" && (t[0] == '-' || t[0] == '+') then t[1..] else t
  {
    sign := if t != "" && (t[0] == '-' || t[0] == '+') then [t[0]] else "";
    digits := t[|sign|..];
  }

  lemma WrittenAs(text: string) returns (pre: string, sign: string, digits: string, post: string)
    requires ParseInt(text).Some?
    ensures Written(text, pre, sign, digits, post) && ParseDigits(digits).Some?
  {
    hide ParseDigits, Trim, AllBlank, Blank;
    var i, j := TrimmedAway(text);
    BlanksAround(text, i, j);
    sign, digits := SignApart(text[i..j]);
    pre, post := text[..i], text[j..];
  }

  /** A text is an integer if and only if it is written like that, with digits that are accepted. */
  lemma ParseIntIff(text: string)
    ensures ParseInt(text).Some? <==>
      exists pre, sign, digits, post :: Written(text, pre, sign, digits, post) && ParseDigits(digits).Some?
  {
    hide Written, ParseDigits, ParseInt;
    if ParseInt(text).Some? { var _, _, _, _ := WrittenAs(text); }
    if pre, sign, digits, post :| Written(text, pre, sign, digits, post) && ParseDigits(digits).Some? {
      ParseWritten(text, pre, sign, digits, post);
    }
  }

  // --------------------------------------------------------------------- a query window

  /** `OFFSET offset LIMIT count`. */
  function Window<T>(rows: seq<T>, offset: nat, count: nat): (w: seq<T>)
    ensures |w| <= count
    ensures forall k :: 0 <= k < |w| ==> offset + k < |rows| && w[k] == rows[offset + k]
    ensures |w| < count ==> |rows| <= offset + |w|
  {
    if |rows| <= offset then [] else if |rows| - offset <= count then rows[offset..] else rows[offset..offset + count]
  }

  /** Fetching one row more than the limit tells whether there are more. */
  lemma OneMoreThanLimit<T>(rows: seq<T>, offset: nat, limit: nat)
    ensures
      var w := Window(rows, offset, limit + 1);
      (|w| > limit <==> offset + limit < |rows|) && Window(rows, offset, limit) == if |w| > limit then w[..limit] else w
  {
  }

  lemma WindowInside<T>(rows: seq<T>, offset: nat, count: nat)
    requires offset + count <= |rows|
    ensures Window(rows, offset, count) == rows[offset..offset + count]
    ensures Window(rows, offset, count) + rows[offset + count..] == rows[offset..]
  {
  }

  lemma SplitAt<T>(a: seq<T>, b: seq<T>)
    ensures (a + b)[..|a|] == a && (a + b)[|a|..] == b
  {
  }

  function Concat<T>(pages: seq<seq<T>>): seq<T>
    decreases |pages|
  {
    if pages == [] then [] else pages[0] + Concat(pages[1..])
  }

  // ------------------------------------------------------------- a user's organisations

  datatype Org = Org(name: string, version: int, model: string, baseUrl: Option<string>)

  /** The current settings version and the defaults that an upgrade writes. */
  datatype Defaults = Defaults(version: int, model: string, baseUrl: Option<string>)

  function Validated(d: Defaults, org: Org): Org {
    if org.version < d.version then org.(version := d.version, model := d.model, baseUrl := d.baseUrl) else org
  }

  function ValidatedAll(d: Defaults, orgs: seq<Org>): (all: seq<Org>)
    ensures |all| == |orgs| && forall i :: 0 <= i < |orgs| ==> all[i] == Validated(d, orgs[i])
  {
    seq(|orgs|, i requires 0 <= i < |orgs| => Validated(d, orgs[i]))
  }

  datatype Answer = Page(orgs: seq<Org>, nextPageId: Option<string>) | RefusedOffset

  function Start(pageId: Option<string>): int {
    if pageId.None? || ParseInt(pageId.value).None? then 0 else ParseInt(pageId.value).value
  }

  lemma NextStart(offset: nat)
    ensures Start(Some(Print(offset))) == offset
  {
    ParsePrint(offset);
  }

  /** What one call answers over the rows `listing`. */
  function PageOf(d: Defaults, listing: seq<Org>, pageId: Option<string>, limit: nat): Answer {
    var offset := Start(pageId);
    if offset < 0 then RefusedOffset else PageAt(d, listing, offset, limit)
  }

  function PageAt(d: Defaults, listing: seq<Org>, offset: nat, limit: nat): Answer {
    Page(ValidatedAll(d, Window(listing, offset, limit)),
         if offset + limit < |listing| then Some(Print(offset + limit)) else None)
  }

  /** The rows of the page are upgraded in the table. */
  function Upgraded(d: Defaults, listing: seq<Org>, offset: int, limit: nat): (after: seq<Org>)
    ensures |after| == |listing|
  {
    seq(|listing|, i requires 0 <= i < |listing| =>
      if 0 <= offset <= i < offset + limit then Validated(d, listing[i]) else listing[i])
  }

  class OrgStore {
    const defaults: Defaults
    /** The user's organisations, in the order of their names. */
    var listing: seq<Org>

    constructor (defaults: Defaults, listing: seq<Org>)
      ensures this.defaults == defaults && this.listing == listing
    {
      this.defaults, this.listing := defaults, listing;
    }

    method ValidateOrgVersion(i: nat) returns (org: Org)
      requires i < |listing|
      modifies this
      ensures listing == old(listing)[i := Validated(defaults, old(listing)[i])]
      ensures org == listing[i] ==
        if old(listing)[i].version >= defaults.version then old(listing)[i]
        else Org(old(listing)[i].name, defaults.version, defaults.model, defaults.baseUrl)
    {
      if listing[i].version < defaults.version {
        var upgraded := listing[i].(version := defaults.version, model := defaults.model, baseUrl := defaults.baseUrl);
        listing := listing[i := upgraded];
      }
      org := listing[i];
    }

    method GetUserOrgsPaginated(pageId: Option<string>, limit: nat) returns (answer: Answer)
      modifies this
      ensures answer == PageOf(defaults, old(listing), pageId, limit)
      ensures listing == Upgraded(defaults, old(listing), Start(pageId), limit)
    {
      var offset := ParseOffset(pageId);
      if offset < 0 {
        assert listing == Upgraded(defaults, listing, offset, limit);
        return RefusedOffset;
      }
      answer := FetchPage(offset, limit);
    }

    /** The query from `offset` on, one row more than the page holds. */
    method FetchPage(offset: nat, limit: nat) returns (answer: Answer)
      modifies this
      ensures answer == PageAt(defaults, old(listing), offset, limit)
      ensures listing == Upgraded(defaults, old(listing), offset, limit)
    {
      var orgs := Window(listing, offset, limit + 1);
      var hasMore := |orgs| > limit;
      if hasMore { orgs := orgs[..limit]; }
      var nextPageId := None;
      if hasMore { nextPageId := Some(Print(offset + limit)); }
      OneMoreThanLimit(listing, offset, limit);
      var validated := ValidateRows(offset, |orgs|);
      assert validated == ValidatedAll(defaults, orgs);
      assert listing == Upgraded(defaults, old(listing), offset, limit);
      answer := Page(validated, nextPageId);
    }

    static method ParseOffset(pageId: Option<string>) returns (offset: int)
      ensures offset == Start(pageId)
    {
      offset := 0;
      if pageId.Some? {
        var parsed := ParseInt(pageId.value);
        if parsed.Some? { offset := parsed.value; }
      }
    }

    /** The loop over the fetched rows. */
    method ValidateRows(offset: nat, count: nat) returns (validated: seq<Org>)
      requires count == 0 || offset + count <= |listing|
      modifies this
      ensures |validated| == count
      ensures forall k :: 0 <= k < count ==> validated[k] == Validated(defaults, old(listing)[offset + k])
      ensures |listing| == |old(listing)|
      ensures forall i :: 0 <= i < |listing| ==>
        listing[i] == if offset <= i < offset + count then Validated(defaults, old(listing)[i]) else old(listing)[i]
    {
      validated := [];
      for k := 0 to count
        invariant |listing| == |old(listing)| && |validated| == k
        invariant forall j :: 0 <= j < k ==> validated[j] == Validated(defaults, old(listing)[offset + j])
        invariant forall i :: 0 <= i < |listing| ==>
          listing[i] == if offset <= i < offset + k then Validated(defaults, old(listing)[i]) else old(listing)[i]
      {
        var org := ValidateOrgVersion(offset + k);
        validated := validated + [org];
      }
    }
  }

  datatype Walked = Walked(pages: seq<seq<Org>>, listing: seq<Org>)

  /** A client that follows `next_page_id` until there is none. */
  function Walk(d: Defaults, listing: seq<Org>, pageId: Option<string>, limit: nat): Walked
    requires limit >= 1 && Start(pageId) >= 0
    decreases |listing| - Start(pageId)
  {
    var page := PageOf(d, listing, pageId, limit);
    var after := Upgraded(d, listing, Start(pageId), limit);
    if page.nextPageId.None? then Walked([page.orgs], after)
    else
      NextStart(Start(pageId) + limit);
      var rest := Walk(d, after, page.nextPageId, limit);
      Walked([page.orgs] + rest.pages, rest.listing)
  }

  /** The same walk on the offsets themselves. */
  function WalkFrom(d: Defaults, listing: seq<Org>, offset: nat, limit: nat): Walked
    requires limit >= 1
    decreases |listing| - offset
  {
    var page := ValidatedAll(d, Window(listing, offset, limit));
    var after := Upgraded(d, listing, offset, limit);
    if |listing| <= offset + limit then Walked([page], after)
    else
      var rest := WalkFrom(d, after, offset + limit, limit);
      Walked([page] + rest.pages, rest.listing)
  }

  /** Printing the offset and reading it back loses nothing. */
  lemma {:induction false} WalkIsWalkFrom(d: Defaults, listing: seq<Org>, pageId: Option<string>, limit: nat)
    requires limit >= 1 && Start(pageId) >= 0
    ensures Walk(d, listing, pageId, limit) == WalkFrom(d, listing, Start(pageId), limit)
    decreases |listing| - Start(pageId)
  {
    hide Start, Print, Upgraded, ValidatedAll, Window;
    var offset := Start(pageId);
    if offset + limit < |listing| {
      NextStart(offset + limit);
      WalkIsWalkFrom(d, Upgraded(d, listing, offset, limit), Some(Print(offset + limit)), limit);
    }
  }

  /** From any offset, the pages are the remaining rows, each upgraded in the table as well. */
  lemma {:induction false} WalkCoversTheRest(d: Defaults, listing: seq<Org>, offset: nat, limit: nat)
    requires limit >= 1 && offset <= |listing|
    ensures
      var w := WalkFrom(d, listing, offset, limit);
      && Concat(w.pages) == ValidatedAll(d, listing[offset..])
      && w.listing == listing[..offset] + ValidatedAll(d, listing[offset..])
    decreases |listing| - offset
  {
    if |listing| <= offset + limit {
      LastPage(d, listing, offset, limit);
    } else {
      var after, next := Upgraded(d, listing, offset, limit), offset + limit;
      WalkCoversTheRest(d, after, next, limit);
      OnePageMore(d, listing, offset, limit, WalkFrom(d, after, next, limit));
    }
  }

  /** A full page before a walk that covers the rest. */
  lemma OnePageMore(d: Defaults, listing: seq<Org>, offset: nat, limit: nat, rest: Walked)
    requires offset + limit < |listing|
    requires
      var after, next := Upgraded(d, listing, offset, limit), offset + limit;
      && Concat(rest.pages) == ValidatedAll(d, after[next..])
      && rest.listing == after[..next] + ValidatedAll(d, after[next..])
    ensures Concat([ValidatedAll(d, Window(listing, offset, limit))] + rest.pages) == ValidatedAll(d, listing[offset..])
    ensures rest.listing == listing[..offset] + ValidatedAll(d, listing[offset..])
  {
    FullPage(d, listing, offset, limit);
    ConcatFirst(ValidatedAll(d, Window(listing, offset, limit)), rest.pages);
  }

  lemma ConcatFirst<T>(page: seq<T>, pages: seq<seq<T>>)
    ensures Concat([page] + pages) == page + Concat(pages)
  {
    assert ([page] + pages)[1..] == pages;
  }

  lemma LastPage(d: Defaults, listing: seq<Org>, offset: nat, limit: nat)
    requires offset <= |listing| <= offset + limit
    ensures Concat([ValidatedAll(d, Window(listing, offset, limit))]) == ValidatedAll(d, listing[offset..])
    ensures Upgraded(d, listing, offset, limit) == listing[..offset] + ValidatedAll(d, listing[offset..])
  {
    var page := ValidatedAll(d, Window(listing, offset, limit));
    assert Concat([page]) == page + Concat([page][1..]);
    assert Window(listing, offset, limit) == listing[offset..];
  }

  lemma FullPage(d: Defaults, listing: seq<Org>, offset: nat, limit: nat)
    requires offset + limit < |listing|
    ensures
      var page, next := ValidatedAll(d, Window(listing, offset, limit)), offset + limit;
      var after := Upgraded(d, listing, offset, limit);
      && page + ValidatedAll(d, after[next..]) == ValidatedAll(d, listing[offset..])
      && after[..next] + ValidatedAll(d, after[next..]) == listing[..offset] + ValidatedAll(d, listing[offset..])
  {
    var before, part, rest := listing[..offset], listing[offset..offset + limit], listing[offset + limit..];
    var page := ValidatedAll(d, part);
    WindowInside(listing, offset, limit);
    UpgradedSplit(d, listing, offset, limit);
    SplitAt(before + page, rest);
    assert listing[offset..] == part + rest;
    ValidatedConcat(d, part, rest);
    Associates(before, page, ValidatedAll(d, rest));
  }

  lemma UpgradedSplit(d: Defaults, listing: seq<Org>, offset: nat, limit: nat)
    requires offset + limit <= |listing|
    ensures Upgraded(d, listing, offset, limit)
      == listing[..offset] + ValidatedAll(d, listing[offset..offset + limit]) + listing[offset + limit..]
  {
    var after, page := Upgraded(d, listing, offset, limit), ValidatedAll(d, listing[offset..offset + limit]);
    var joined := listing[..offset] + page + listing[offset + limit..];
    forall i | 0 <= i < |listing| ensures after[i] == joined[i] {
      if i < offset {
        assert joined[i] == listing[i];
      } else if i < offset + limit {
        assert joined[i] == page[i - offset] == Validated(d, listing[i]);
      } else {
        assert joined[i] == listing[offset + limit..][i - offset - limit] == listing[i];
      }
    }
  }

  lemma Associates<T>(a: seq<T>, b: seq<T>, c: seq<T>)
    ensures a + b + c == a + (b + c)
  {
  }

  lemma ValidatedConcat(d: Defaults, a: seq<Org>, b: seq<Org>)
    ensures ValidatedAll(d, a + b) == ValidatedAll(d, a) + ValidatedAll(d, b)
  {
  }

  /** `pages` is the least positive number of pages of size `limit` that hold the rows. */
  predicate Fewest(pages: nat, rows: nat, limit: nat) {
    pages >= 1 && rows <= pages * limit && (pages == 1 || (pages - 1) * limit < rows)
  }

  lemma {:induction false} WalkLength(d: Defaults, listing: seq<Org>, offset: nat, limit: nat)
    requires limit >= 1 && offset <= |listing|
    ensures Fewest(|WalkFrom(d, listing, offset, limit).pages|, |listing| - offset, limit)
    decreases |listing| - offset
  {
    if offset + limit < |listing| {
      var after := Upgraded(d, listing, offset, limit);
      WalkLength(d, after, offset + limit, limit);
      FewestPlusOne(|WalkFrom(d, after, offset + limit, limit).pages|, |listing| - offset - limit, limit);
    }
  }

  lemma FewestPlusOne(pages: nat, rows: nat, limit: nat)
    requires Fewest(pages, rows, limit) && rows > 0
    ensures Fewest(pages + 1, rows + limit, limit)
  {
    assert (pages + 1) * limit == pages * limit + limit && pages * limit == (pages - 1) * limit + limit;
  }

  lemma WalkFromStart(d: Defaults, listing: seq<Org>, limit: nat)
    requires limit >= 1
    ensures
      var w := WalkFrom(d, listing, 0, limit);
      Concat(w.pages) == ValidatedAll(d, listing) && w.listing == ValidatedAll(d, listing)
  {
    WalkCoversTheRest(d, listing, 0, limit);
    assert listing[0..] == listing && listing[..0] == [];
  }

  /**
   * Following `next_page_id` from none, with any limit of at least one: the pages joined are
   * the user's whole list in name order, each organisation once and validated, and the table
   * holds those same validated rows.
   */
  lemma PagesAreTheWholeList(d: Defaults, listing: seq<Org>, limit: nat)
    requires limit >= 1
    ensures Concat(Walk(d, listing, None, limit).pages) == ValidatedAll(d, listing)
    ensures Walk(d, listing, None, limit).listing == ValidatedAll(d, listing)
  {
    WalkIsWalkFrom(d, listing, None, limit);
    WalkFromStart(d, listing, limit);
  }

  /** It takes the fewest pages of that size that hold the list. */
  lemma PagesAreFewest(d: Defaults, listing: seq<Org>, limit: nat)
    requires limit >= 1
    ensures Fewest(|Walk(d, listing, None, limit).pages|, |listing|, limit)
  {
    hide Fewest;
    WalkIsWalkFrom(d, listing, None, limit);
    WalkLength(d, listing, 0, limit);
  }

  /** Beyond the end there is nothing: one empty page and no next id. */
  lemma WalkBeyondEnd(d: Defaults, listing: seq<Org>, offset: nat, limit: nat)
    requires limit >= 1 && |listing| <= offset
    ensures WalkFrom(d, listing, offset, limit) == Walked([[]], listing)
  {
    assert Window(listing, offset, limit) == [];
    assert Upgraded(d, listing, offset, limit) == listing;
  }

  /**
   * What a client sees that starts from any page id, its own text included: from an integer
   * up to the length of the list, the rest of the list; from a larger one, nothing; from a
   * text that is no integer, the whole list again.  Only a negative integer is refused.
   */
  lemma WalkFromAnyPageId(d: Defaults, listing: seq<Org>, text: string, limit: nat)
    requires limit >= 1
    ensures
      var start := if ParseInt(text).Some? then ParseInt(text).value else 0;
      if start < 0 then PageOf(d, listing, Some(text), limit) == RefusedOffset
      else
        Concat(Walk(d, listing, Some(text), limit).pages)
          == ValidatedAll(d, if start <= |listing| then listing[start..] else [])
  {
    var start := Start(Some(text));
    if start >= 0 {
      WalkIsWalkFrom(d, listing, Some(text), limit);
      if start <= |listing| {
        WalkCoversTheRest(d, listing, start, limit);
        assert listing[0..] == listing;
      } else {
        WalkBeyondEnd(d, listing, start, limit);
        var empty: seq<Org> := [];
        assert Concat([empty]) == empty + Concat([empty][1..]);
      }
    }
  }

  // ------------------------------------------------------------ an organisation's members

  datatype Member = Member(userId: string, email: string)

  /** The filter applies only when it is given and not empty. */
  predicate Kept(member: Member, emailFilter: Option<string>, like: (string, string) -> bool) {
    emailFilter.None? || emailFilter.value == "" || like(member.email, emailFilter.value)
  }

  function Matching(members: seq<Member>, emailFilter: Option<string>, like: (string, string) -> bool): seq<Member>
    decreases |members|
  {
    if members == [] then []
    else (if Kept(members[0], emailFilter, like) then [members[0]] else []) + Matching(members[1..], emailFilter, like)
  }

  class OrgMemberStore {
    /** The members by user id. */
    var members: seq<Member>

    constructor (members: seq<Member>)
      ensures this.members == members
    {
      this.members := members;
    }

    method GetOrgMembersPaginated(offset: nat, limit: nat, emailFilter: Option<string>, like: (string, string) -> bool)
      returns (page: seq<Member>, hasMore: bool)
      ensures page == Window(Matching(members, emailFilter, like), offset, limit)
      ensures hasMore <==> offset + limit < |Matching(members, emailFilter, like)|
    {
      page := Window(Matching(members, emailFilter, like), offset, limit + 1);
      hasMore := |page| > limit;
      if hasMore { page := page[..limit]; }
    }
  }

  /** A caller that moves on by `limit` while there are more. */
  function MemberPages(matching: seq<Member>, offset: nat, limit: nat): seq<seq<Member>>
    requires limit >= 1
    decreases |matching| - offset
  {
    [Window(matching, offset, limit)] +
      if offset + limit < |matching| then MemberPages(matching, offset + limit, limit) else []
  }

  lemma {:induction false} MemberPagesCover(matching: seq<Member>, offset: nat, limit: nat)
    requires limit >= 1 && offset <= |matching|
    ensures Concat(MemberPages(matching, offset, limit)) == matching[offset..]
    decreases |matching| - offset
  {
    var pages := MemberPages(matching, offset, limit);
    if offset + limit < |matching| {
      MemberPagesCover(matching, offset + limit, limit);
      WindowInside(matching, offset, limit);
      assert pages[1..] == MemberPages(matching, offset + limit, limit);
    } else {
      assert pages[1..] == [] && Concat(pages) == pages[0] + Concat([]);
    }
  }

  /** Every member that passes the filter is listed as often as it occurs, and no other is. */
  lemma {:induction false} MatchingIsTheFilter(
      members: seq<Member>, emailFilter: Option<string>, like: (string, string) -> bool)
    ensures
      var m := Matching(members, emailFilter, like);
      && multiset(m) <= multiset(members)
      && (forall x :: multiset(m)[x] ==
            if emailFilter == None || emailFilter == Some("") || like(x.email, emailFilter.value)
            then multiset(members)[x] else 0)
    decreases |members|
  {
    if members != [] {
      MatchingIsTheFilter(members[1..], emailFilter, like);
      assert members == [members[0]] + members[1..];
    }
  }

  /** In their order. */
  lemma {:induction false} MatchingInOrder(
      before: seq<Member>, after: seq<Member>, emailFilter: Option<string>, like: (string, string) -> bool)
    ensures Matching(before + after, emailFilter, like)
      == Matching(before, emailFilter, like) + Matching(after, emailFilter, like)
    decreases |before|
  {
    if before == [] {
      assert before + after == after;
    } else {
      assert (before + after)[1..] == before[1..] + after;
      MatchingInOrder(before[1..], after, emailFilter, like);
    }
  }

  // ----------------------------------------------------------- the members' finances

  /**
   * The next page id of the financial view, which takes the has-more flag of the member
   * query for a total count: true counts as one.
   */
  function FinancialNext(page: seq<Member>, offset: nat, limit: nat, totalCount: bool): Option<string> {
    if page == [] then None
    else if offset + limit < (if totalCount then 1 else 0) then Some(Print(offset + limit))
    else None
  }

  /** The offsets a client reaches after `from` by following the ids of the financial view. */
  ghost predicate Reached(members: seq<Member>, limit: nat, from: nat, later: seq<nat>)
    decreases |later|
  {
    later == [] || (
      && FinancialNext(Window(members, from, limit), from, limit, from + limit < |members|) == Some(Print(later[0]))
      && Reached(members, limit, later[0], later[1..]))
  }

  /**
   * The financial view never offers a second page: what a client sees from the start is
   * every member if and only if one page holds them all.
   */
  lemma FinancialViewStopsAtOnePage(members: seq<Member>, limit: nat, later: seq<nat>)
    requires limit >= 1 && Reached(members, limit, 0, later)
    ensures later == []
    ensures Window(members, 0, limit) == members <==> |members| <= limit
  {
  }
}

/** The two small helpers of app.py: contact_link, which turns a contact into a
    mailto: or tel: link, and get_distinct_values, which lists the distinct
    non-NULL values of a column in sorted order. */
module Helpers {
  import opened Sql

  // ---------------------------------------------------------------------------
  // contact_link

  /** A Contact cell: a string, or another Python value (a number read from a CSV,
      say) together with the text str() makes of it. */
  datatype ContactValue = Text(s: string) | NonText(shown: string)

  /** The text an f-string renders for the contact. */
  function Shown(c: ContactValue): string {
    match c
    case Text(s) => s
    case NonText(t) => t
  }

  /** An e-mail address is a string holding an '@'; anything else is taken for a phone number. */
  predicate LooksLikeEmail(c: ContactValue) {
    c.Text? && '@' in c.s
  }

  function ContactLink(c: ContactValue): string {
    if LooksLikeEmail(c) then "mailto:" + Shown(c) else "tel:" + Shown(c)
  }

  /** The link has the mailto: scheme. */
  predicate IsMailto(link: string) {
    |link| >= 7 && link[..7] == "mailto:"
  }

  /** The address a link points at: the text after its scheme. */
  function LinkTarget(link: string): string {
    if IsMailto(link) then link[7..]
    else if |link| >= 4 && link[..4] == "tel:" then link[4..]
    else link
  }

  /** contact_link chooses mailto: exactly for strings that contain '@', tel: for
      everything else, and the contact can be read back from the link unchanged. */
  lemma ContactLinkRoundTrip(c: ContactValue)
    ensures IsMailto(ContactLink(c)) <==> LooksLikeEmail(c)
    ensures !IsMailto(ContactLink(c)) ==> ContactLink(c)[..4] == "tel:"
    ensures LinkTarget(ContactLink(c)) == Shown(c)
  {
    var link := ContactLink(c);
    if LooksLikeEmail(c) {
      assert link[..7] == "mailto:";
      assert link[7..] == Shown(c);
    } else {
      assert link[0] == 't';
      assert link[..4] == "tel:";
      assert link[4..] == Shown(c);
    }
  }

  // ---------------------------------------------------------------------------
  // get_distinct_values

  /** Python's order on str: lexicographic by code point. */
  predicate StrLess(a: string, b: string) {
    if a == [] then b != []
    else b != [] && (a[0] < b[0] || (a[0] == b[0] && StrLess(a[1..], b[1..])))
  }

  lemma {:induction false} StrLessIrreflexive(a: string)
    ensures !StrLess(a, a)
  {
    if a != [] {
      StrLessIrreflexive(a[1..]);
    }
  }

  lemma {:induction false} StrLessTransitive(a: string, b: string, c: string)
    requires StrLess(a, b) && StrLess(b, c)
    ensures StrLess(a, c)
  {
    if a != [] && a[0] == b[0] && b[0] == c[0] {
      StrLessTransitive(a[1..], b[1..], c[1..]);
    }
  }

  lemma {:induction false} StrLessTotal(a: string, b: string)
    requires a != b
    ensures StrLess(a, b) || StrLess(b, a)
  {
    if a != [] && b != [] && a[0] == b[0] {
      assert a == [a[0]] + a[1..] && b == [b[0]] + b[1..];
      StrLessTotal(a[1..], b[1..]);
    }
  }

  /** Sorted in Python's order with no value twice. */
  predicate StrictlyIncreasing(s: seq<string>) {
    forall i, j :: 0 <= i < j < |s| ==> StrLess(s[i], s[j])
  }

  /** Puts x into a sorted list at its place, unless it is already there. */
  function InsertSorted(x: string, s: seq<string>): seq<string> {
    if s == [] then [x]
    else if x == s[0] then s
    else if StrLess(x, s[0]) then [x] + s
    else [s[0]] + InsertSorted(x, s[1..])
  }

  lemma ConsIncreasing(h: string, rest: seq<string>)
    requires StrictlyIncreasing(rest)
    requires forall y :: y in rest ==> StrLess(h, y)
    ensures StrictlyIncreasing([h] + rest)
  {
    var r := [h] + rest;
    forall i, j | 0 <= i < j < |r| ensures StrLess(r[i], r[j]) {
      assert r[j] == rest[j - 1];
      if i == 0 {
        assert rest[j - 1] in rest;
      } else {
        assert r[i] == rest[i - 1];
      }
    }
  }

  lemma {:induction false} InsertSortedFacts(x: string, s: seq<string>)
    requires StrictlyIncreasing(s)
    ensures StrictlyIncreasing(InsertSorted(x, s))
    ensures forall y :: y in InsertSorted(x, s) <==> y == x || y in s
  {
    if s == [] {
    } else if x == s[0] {
    } else if StrLess(x, s[0]) {
      forall y | y in s ensures StrLess(x, y) {
        var k :| 0 <= k < |s| && s[k] == y;
        if k > 0 {
          StrLessTransitive(x, s[0], y);
        }
      }
      ConsIncreasing(x, s);
    } else {
      assert s == [s[0]] + s[1..];
      var rest := InsertSorted(x, s[1..]);
      InsertSortedFacts(x, s[1..]);
      StrLessTotal(x, s[0]);
      forall y | y in rest ensures StrLess(s[0], y) {
        if y != x {
          var k :| 0 <= k < |s[1..]| && s[1..][k] == y;
          assert s[k + 1] == y;
        }
      }
      ConsIncreasing(s[0], rest);
    }
  }

  /** sorted() of the non-NULL values, each once. */
  function SortedDistinct(vs: seq<Option<string>>): seq<string> {
    if vs == [] then []
    else
      var rest := SortedDistinct(vs[1..]);
      match vs[0]
      case None => rest
      case Some(v) => InsertSorted(v, rest)
  }

  lemma {:induction false} SortedDistinctFacts(vs: seq<Option<string>>)
    ensures StrictlyIncreasing(SortedDistinct(vs))
    ensures forall v :: v in SortedDistinct(vs) <==> Some(v) in vs
  {
    if vs != [] {
      SortedDistinctFacts(vs[1..]);
      assert vs == [vs[0]] + vs[1..];
      if vs[0].Some? {
        InsertSortedFacts(vs[0].value, SortedDistinct(vs[1..]));
      }
    }
  }

  /** get_distinct_values(table, column): column is the column's values, or None
      when the query fails (no such table or column), in which case the result is
      the empty list. Otherwise the result is strictly increasing, so free of
      duplicates, and holds exactly the non-NULL values of the column. */
  function DistinctValues(column: Option<seq<Option<string>>>): (r: seq<string>)
    ensures column.None? ==> r == []
    ensures StrictlyIncreasing(r)
    ensures column.Some? ==> forall v :: v in r <==> Some(v) in column.value
  {
    match column
    case None => []
    case Some(vs) =>
      SortedDistinctFacts(vs);
      SortedDistinct(vs)
  }
}

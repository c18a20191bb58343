/**
 * The search screen (frontend/src/SearchScreen.js): the case-insensitive
 * filter over the loaded contacts, and the display helpers for a result's
 * phone, initials and name. A null field reads as `''`, as `field || ''`
 * does.
 */
module SearchScreen {
  import opened Wrappers
  import opened Text
  import opened Contacts

  /** `field || ''`. */
  function OrEmpty(v: Option<string>): string {
    if v.Some? then v.value else ""
  }

  /** `` `${first_name || ''} ${last_name || ''}` ``. */
  function FullName(c: Contact): string {
    OrEmpty(c.firstName) + " " + OrEmpty(c.lastName)
  }

  /**
   * The filter's test for one contact: the lower-cased query occurs in the
   * lower-cased full name, phone, email, first name or last name.
   */
  predicate Matches(c: Contact, query: string) {
    var q := Lower(query);
    Contains(Lower(FullName(c)), q)
    || Contains(Lower(OrEmpty(c.phoneNumber)), q)
    || Contains(Lower(OrEmpty(c.emailAddress)), q)
    || Contains(Lower(OrEmpty(c.firstName)), q)
    || Contains(Lower(OrEmpty(c.lastName)), q)
  }

  /** The first- and last-name tests add nothing: the full name holds both. */
  lemma MatchesByFullName(c: Contact, query: string)
    ensures Matches(c, query) <==>
      Contains(Lower(FullName(c)), Lower(query))
      || Contains(Lower(OrEmpty(c.phoneNumber)), Lower(query))
      || Contains(Lower(OrEmpty(c.emailAddress)), Lower(query))
  {
    var q := Lower(query);
    var first := OrEmpty(c.firstName);
    var last := OrEmpty(c.lastName);
    LowerConcat(first + " ", last);
    LowerConcat(first, " ");
    assert Lower(FullName(c)) == Lower(first) + (Lower(" ") + Lower(last));
    if Contains(Lower(first), q) {
      ContainsInPrefix(Lower(first), Lower(" ") + Lower(last), q);
    }
    if Contains(Lower(last), q) {
      ContainsInSuffix(Lower(first) + Lower(" "), Lower(last), q);
    }
  }

  /** `contacts.filter(...)`. */
  function Filter(contacts: seq<Contact>, query: string): (r: seq<Contact>)
    ensures |r| <= |contacts|
    ensures forall c :: c in r <==> c in contacts && Matches(c, query)
    ensures forall c :: multiset(r)[c] == if Matches(c, query) then multiset(contacts)[c] else 0
  {
    if contacts == [] then []
    else
      assert contacts == [contacts[0]] + contacts[1..];
      (if Matches(contacts[0], query) then [contacts[0]] else []) + Filter(contacts[1..], query)
  }

  /** The search results: nothing for a blank query, otherwise the matching contacts. */
  function Search(contacts: seq<Contact>, query: string): (r: seq<Contact>)
    ensures All(query, IsJsSpace) ==> r == []
    ensures !All(query, IsJsSpace) ==> forall c :: c in r <==> c in contacts && Matches(c, query)
    ensures !All(query, IsJsSpace) ==>
      forall c :: multiset(r)[c] == if Matches(c, query) then multiset(contacts)[c] else 0
  {
    StripEmptyIffBlank(query, IsJsSpace);
    if Strip(query, IsJsSpace) == [] then [] else Filter(contacts, query)
  }

  /** `a` is `b` with some elements left out, the rest in their order. */
  predicate Subsequence(a: seq<Contact>, b: seq<Contact>)
    decreases |b|
  {
    if a == [] then true
    else if b == [] then false
    else (a[0] == b[0] && Subsequence(a[1..], b[1..])) || Subsequence(a, b[1..])
  }

  /** The filter keeps the matching contacts in their original order. */
  lemma {:induction false} FilterIsSubsequence(contacts: seq<Contact>, query: string)
    ensures Subsequence(Filter(contacts, query), contacts)
  {
    if contacts != [] {
      var rest := Filter(contacts[1..], query);
      FilterIsSubsequence(contacts[1..], query);
      if Matches(contacts[0], query) {
        assert Filter(contacts, query) == [contacts[0]] + rest;
        assert ([contacts[0]] + rest)[1..] == rest;
      } else {
        assert Filter(contacts, query) == rest;
      }
    }
  }

  /** The results are exactly the matching contacts, in list order. */
  lemma SearchResults(contacts: seq<Contact>, query: string)
    requires !All(query, IsJsSpace)
    ensures Search(contacts, query) == Filter(contacts, query)
    ensures Subsequence(Search(contacts, query), contacts)
  {
    StripEmptyIffBlank(query, IsJsSpace);
    FilterIsSubsequence(contacts, query);
  }

  // ---------------------------------------------------------------------------
  // Display helpers

  /** `'(ddd) ddd-dddd'` from ten digits. */
  function Grouped(d: string): (r: string)
    requires |d| == 10
    ensures |r| == 14
    ensures r[0] == '(' && r[1..4] == d[..3] && r[4..6] == ") "
    ensures r[6..9] == d[3..6] && r[9] == '-' && r[10..] == d[6..]
  {
    "(" + d[..3] + ") " + d[3..6] + "-" + d[6..]
  }

  /** The digits of the grouped form are the ten digits it was made from. */
  lemma GroupedDigits(d: string)
    requires |d| == 10 && AllDigits(d)
    ensures Digits(Grouped(d)) == d
  {
    var a, b, c := d[..3], d[3..6], d[6..];
    assert AllDigits(a) && AllDigits(b) && AllDigits(c);
    DigitsOfDigits(a);
    DigitsOfDigits(b);
    DigitsOfDigits(c);
    DigitsConcat("(", a);
    DigitsConcat("(" + a, ") ");
    DigitsConcat("(" + a + ") ", b);
    DigitsConcat("(" + a + ") " + b, "-");
    DigitsConcat("(" + a + ") " + b + "-", c);
    assert Digits("(") == [] by { assert Digits("(") == [] + Digits(""); }
    assert Digits(") ") == [] by {
      assert Digits(") ") == [] + Digits(" ");
      assert Digits(" ") == [] + Digits("");
    }
    assert Digits("-") == [] by { assert Digits("-") == [] + Digits(""); }
    assert a + b + c == d;
  }

  /**
   * `formatPhone`: nothing for a missing number, the grouped form when the
   * number holds exactly ten digits, otherwise the number as stored.
   */
  function FormatPhone(phone: Option<string>): (r: string)
    ensures OrEmpty(phone) == [] ==> r == []
    ensures OrEmpty(phone) != [] && |Digits(phone.value)| == 10 ==> r == Grouped(Digits(phone.value))
    ensures OrEmpty(phone) != [] && |Digits(phone.value)| != 10 ==> r == phone.value
  {
    if OrEmpty(phone) == [] then []
    else
      var cleaned := Digits(phone.value);
      if |cleaned| == 10 then Grouped(cleaned) else phone.value
  }

  /** Formatting a formatted number changes nothing. */
  lemma FormatPhoneIdempotent(phone: Option<string>)
    ensures FormatPhone(Some(FormatPhone(phone))) == FormatPhone(phone)
  {
    if OrEmpty(phone) != [] && |Digits(phone.value)| == 10 {
      GroupedDigits(Digits(phone.value));
    }
  }

  /** A stored number of ten bare digits is shown grouped, and the grouped form keeps its digits. */
  lemma FormatPhoneOfTenDigits(d: string)
    requires |d| == 10 && AllDigits(d)
    ensures FormatPhone(Some(d)) == Grouped(d)
    ensures Digits(FormatPhone(Some(d))) == d
  {
    DigitsOfDigits(d);
    GroupedDigits(d);
  }

  /** `field.charAt(0).toUpperCase()` when the field is non-empty. */
  function Initial(v: Option<string>): (r: string)
    ensures |r| <= 1
    ensures r == [] <==> OrEmpty(v) == []
  {
    if OrEmpty(v) == [] then [] else [UpperChar(v.value[0])]
  }

  /** `getContactInitials`: up to two upper-cased initials, or `'?'` with neither name. */
  function Initials(c: Contact): (r: string)
    ensures 1 <= |r| <= 2
    ensures OrEmpty(c.firstName) == [] && OrEmpty(c.lastName) == [] ==> r == "?"
    ensures |r| == 2 <==> OrEmpty(c.firstName) != [] && OrEmpty(c.lastName) != []
    ensures OrEmpty(c.firstName) != [] ==> r[0] == UpperChar(c.firstName.value[0])
    ensures OrEmpty(c.lastName) != [] ==> r[|r| - 1] == UpperChar(c.lastName.value[0])
  {
    var both := Initial(c.firstName) + Initial(c.lastName);
    if both == [] then "?" else both
  }

  const UnknownContact := "Unknown Contact"

  /** `getContactName`: the trimmed full name, or `'Unknown Contact'` when that is empty. */
  function DisplayName(c: Contact): (r: string)
    ensures r != []
    ensures r == UnknownContact <==> All(FullName(c), IsJsSpace) || Strip(FullName(c), IsJsSpace) == UnknownContact
    ensures !All(FullName(c), IsJsSpace) ==> r == Strip(FullName(c), IsJsSpace)
  {
    StripEmptyIffBlank(FullName(c), IsJsSpace);
    var name := Strip(FullName(c), IsJsSpace);
    if name == [] then UnknownContact else name
  }

  /** Names without surrounding whitespace are shown as they are, separated by one space. */
  lemma DisplayNameOfPlainNames(c: Contact)
    requires OrEmpty(c.firstName) != [] && OrEmpty(c.lastName) != []
    requires !IsJsSpace(c.firstName.value[0]) && !IsJsSpace(c.lastName.value[|c.lastName.value| - 1])
    ensures DisplayName(c) == c.firstName.value + " " + c.lastName.value
  {
    var full := FullName(c);
    assert full[0] == c.firstName.value[0];
    assert full[|full| - 1] == c.lastName.value[|c.lastName.value| - 1];
    StripUnpadded(full, IsJsSpace);
  }
}

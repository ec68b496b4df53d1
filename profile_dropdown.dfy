/** The avatar menu's initials: the upper-cased first letters of the user's
    first two names, or of the one name, and "U" when there is no name. */
module ProfileDropdown {
  import opened Common

  /** The first part of a split begins with the text's first character,
      when that is not the separator. */
  lemma SplitHead(s: string, sep: char)
    requires s != ""
    ensures s[0] != sep ==> Split(s, sep)[0] != "" && Split(s, sep)[0][0] == s[0]
  {
  }

  /** getInitials: "U" for a missing or empty name; with two or more
      space-separated parts, the first characters of the first two; with
      one part, the name's first character; upper-cased. A part that is
      empty (two spaces in a row, a leading space) contributes nothing. */
  function GetInitials(name: Option<string>): (r: string)
    ensures name.None? || name.value == "" ==> r == "U"
    ensures |r| <= 2
    ensures name.Some? && name.value != "" && name.value[0] != ' ' ==> |r| >= 1 && r[0] == UpperChar(name.value[0])
  {
    if name.None? || name.value == "" then "U"
    else
      var names := Split(name.value, ' ');
      SplitHead(name.value, ' ');
      if |names| >= 2 then Upper(FirstChar(names[0]) + FirstChar(names[1]))
      else Upper(FirstChar(name.value))
  }

  /** A name of two words or more: the initials of the first two words. */
  lemma InitialsOfTwoWords(first: string, second: string, rest: string)
    requires first != "" && ' ' !in first
    requires second != "" && second[0] != ' '
    ensures GetInitials(Some(first + " " + second + rest)) == [UpperChar(first[0]), UpperChar(second[0])]
  {
    var s := first + " " + second + rest;
    assert s == first + [' '] + (second + rest);
    SplitAfter(first, second + rest, ' ');
    SplitHead(second + rest, ' ');
    var names := Split(s, ' ');
    assert names[1] == Split(second + rest, ' ')[0];
  }

  /** A name of one word: the initial of that word. */
  lemma InitialsOfOneWord(word: string)
    requires word != "" && ' ' !in word
    ensures GetInitials(Some(word)) == [UpperChar(word[0])]
  {
    SplitWithout(word, ' ');
  }
}

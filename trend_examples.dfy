/** A tag line with an empty entry, as in `TAGS: #AI, , #ML`. */
module TrendExamples {
  import opened Text
  import opened Types
  import opened TrendParser

  lemma TrimBlank()
    ensures Trim(" ") == ""
  {
  }

  lemma SplitTagLine()
    ensures Split(" #AI, , #ML", ',') == [" #AI", " ", " #ML"]
  {
    var parts := [" #AI", " ", " #ML"];
    hide Split;
    assert " #AI, , #ML" == Join(parts, ',');
    SplitJoin(parts, ',');
  }

  lemma TrimTagParts()
    ensures TrimEach([" #AI", " ", " #ML"]) == ["#AI", "", "#ML"]
  {
    hide Trim;
    TrimLeadingSpace("#AI");
    TrimLeadingSpace("#ML");
    TrimBlank();
    assert " " + "#AI" == " #AI" && " " + "#ML" == " #ML";
    assert [" #AI", " ", " #ML"][1..] == [" ", " #ML"];
    assert [" ", " #ML"][1..] == [" #ML"];
  }

  /** A blank entry between commas is dropped; the others keep their `#` and their order. */
  lemma BlankTagDropped()
    ensures Entries(" #AI, , #ML") == ["#AI", "#ML"]
  {
    hide Split, TrimEach;
    SplitTagLine();
    TrimTagParts();
    assert ["#AI", "", "#ML"][1..] == ["", "#ML"];
    assert ["", "#ML"][1..] == ["#ML"];
  }
}

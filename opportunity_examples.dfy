/**
  Facts about the six built-in opportunities: searching for "Translation" finds
  only the first one. Each text is cut at spaces into pieces; an occurrence of
  "translation" cannot run across a space, and each piece lacks one of the
  word's letters in both cases.
 */
module OpportunityExamples {
  import opened Text
  import opened Seqs
  import opened Opportunities

  /** The lower-cased search word. */
  const Word := "translation"

  lemma LowerTranslation()
    ensures LowerStr("Translation") == Word
  {
    var s := LowerStr("Translation");
    assert s[0] == 't' && s[1] == 'r' && s[2] == 'a' && s[3] == 'n' && s[4] == 's' && s[5] == 'l';
    assert s[6] == 'a' && s[7] == 't' && s[8] == 'i' && s[9] == 'o' && s[10] == 'n';
  }

  /** A text lacking one of the word's letters, in both cases, lacks the word once lower-cased. */
  lemma LacksLetter(x: string, c: char)
    requires 'a' <= c <= 'z' && c in Word && c !in x && Upper(c) !in x
    ensures !Contains(LowerStr(x), Word)
  {
    LowerStrAbsent(x, c);
    ContainsHasChars(LowerStr(x), Word, c);
  }

  /** A text made of a piece ending in a space and a rest lacks the word when both parts do. */
  lemma LacksAcrossSpace(x: string, y: string)
    requires |x| > 0 && x[|x| - 1] == ' '
    requires !Contains(LowerStr(x), Word) && !Contains(LowerStr(y), Word)
    ensures !Contains(LowerStr(x + y), Word)
  {
    LowerStrAppend(x, y);
    assert LowerStr(x)[|x| - 1] == ' ';
    assert ' ' !in Word;
    ContainsAcrossBreak(LowerStr(x), LowerStr(y), Word);
  }

  /** The first opportunity's title starts with the search word. */
  lemma Title0HasTranslation()
    ensures Contains(LowerStr("Translation Services at " + "Grand Mosque"), Word)
  {
    var x, y := "Translation", " Services at " + "Grand Mosque";
    assert "Translation Services at " + "Grand Mosque" == x + y;
    LowerTranslation();
    LowerStrAppend(x, y);
    assert LowerStr(x + y)[..11] == Word;
    assert OccursAt(LowerStr(x + y), Word, 0);
  }

  lemma FirstTitleHasTranslation()
    ensures Contains(LowerStr(MockOpportunities()[0].title), Word)
  {
    assert MockOpportunities()[0].title == "Translation Services at " + "Grand Mosque";
    Title0HasTranslation();
  }

  lemma Title1Piece1()
    ensures !Contains(LowerStr("Visitor Guidance in "), Word)
  {
    LacksLetter("Visitor Guidance in ", 'l');
  }

  lemma Title1Piece2()
    ensures !Contains(LowerStr("Prophet's Mosque"), Word)
  {
    LacksLetter("Prophet's Mosque", 'l');
  }

  lemma Title1LacksTranslation()
    ensures !Contains(LowerStr("Visitor Guidance in " + "Prophet's Mosque"), Word)
  {
    var a, b := "Visitor Guidance in ", "Prophet's Mosque";
    assert "Visitor Guidance in " + "Prophet's Mosque" == a + b;
    Title1Piece1(); Title1Piece2();
    LacksAcrossSpace(a, b);
  }

  lemma Description1Piece1()
    ensures !Contains(LowerStr("Assist visitors with "), Word)
  {
    LacksLetter("Assist visitors with ", 'l');
  }

  lemma Description1Piece2()
    ensures !Contains(LowerStr("directions and "), Word)
  {
    LacksLetter("directions and ", 'l');
  }

  lemma Description1Piece3()
    ensures !Contains(LowerStr("information at the "), Word)
  {
    LacksLetter("information at the ", 'l');
  }

  lemma Description1Piece4()
    ensures !Contains(LowerStr("Prophet's Mosque."), Word)
  {
    LacksLetter("Prophet's Mosque.", 'l');
  }

  lemma Description1LacksTranslation()
    ensures !Contains(LowerStr("Assist visitors with " + "directions and " + "information at the " + "Prophet's Mosque."), Word)
  {
    var a, b, c, d := "Assist visitors with ", "directions and ", "information at the ", "Prophet's Mosque.";
    assert "Assist visitors with " + "directions and " + "information at the " + "Prophet's Mosque." == a + (b + (c + d));
    Description1Piece1(); Description1Piece2(); Description1Piece3(); Description1Piece4();
    LacksAcrossSpace(c, d);
    LacksAcrossSpace(b, c + d);
    LacksAcrossSpace(a, b + (c + d));
  }

  lemma Record1LacksTranslation()
    ensures !Contains(LowerStr(MockOpportunities()[1].title), Word)
    ensures !Contains(LowerStr(MockOpportunities()[1].description), Word)
  {
    assert MockOpportunities()[1].title == "Visitor Guidance in " + "Prophet's Mosque";
    Title1LacksTranslation();
    assert MockOpportunities()[1].description == "Assist visitors with " + "directions and " + "information at the " + "Prophet's Mosque.";
    Description1LacksTranslation();
  }

  lemma Title2Piece1()
    ensures !Contains(LowerStr("Elderly Assistance "), Word)
  {
    LacksLetter("Elderly Assistance ", 'o');
  }

  lemma Title2Piece2()
    ensures !Contains(LowerStr("Program"), Word)
  {
    LacksLetter("Program", 't');
  }

  lemma Title2LacksTranslation()
    ensures !Contains(LowerStr("Elderly Assistance " + "Program"), Word)
  {
    var a, b := "Elderly Assistance ", "Program";
    assert "Elderly Assistance " + "Program" == a + b;
    Title2Piece1(); Title2Piece2();
    LacksAcrossSpace(a, b);
  }

  lemma Description2Piece1()
    ensures !Contains(LowerStr("Provide support to "), Word)
  {
    LacksLetter("Provide support to ", 'a');
  }

  lemma Description2Piece2()
    ensures !Contains(LowerStr("elderly visitors during "), Word)
  {
    LacksLetter("elderly visitors during ", 'a');
  }

  lemma Description2Piece3()
    ensures !Contains(LowerStr("their visit to the Holy "), Word)
  {
    LacksLetter("their visit to the Holy ", 'a');
  }

  lemma Description2Piece4()
    ensures !Contains(LowerStr("Mosques."), Word)
  {
    LacksLetter("Mosques.", 'a');
  }

  lemma Description2LacksTranslation()
    ensures !Contains(LowerStr("Provide support to " + "elderly visitors during " + "their visit to the Holy " + "Mosques."), Word)
  {
    var a, b, c, d := "Provide support to ", "elderly visitors during ", "their visit to the Holy ", "Mosques.";
    assert "Provide support to " + "elderly visitors during " + "their visit to the Holy " + "Mosques." == a + (b + (c + d));
    Description2Piece1(); Description2Piece2(); Description2Piece3(); Description2Piece4();
    LacksAcrossSpace(c, d);
    LacksAcrossSpace(b, c + d);
    LacksAcrossSpace(a, b + (c + d));
  }

  lemma Record2LacksTranslation()
    ensures !Contains(LowerStr(MockOpportunities()[2].title), Word)
    ensures !Contains(LowerStr(MockOpportunities()[2].description), Word)
  {
    assert MockOpportunities()[2].title == "Elderly Assistance " + "Program";
    Title2LacksTranslation();
    assert MockOpportunities()[2].description == "Provide support to " + "elderly visitors during " + "their visit to the Holy " + "Mosques.";
    Description2LacksTranslation();
  }

  lemma Title3LacksTranslation()
    ensures !Contains(LowerStr("Water Distribution Team"), Word)
  {
    LacksLetter("Water Distribution Team", 'l');
  }

  lemma Description3Piece1()
    ensures !Contains(LowerStr("Join the team "), Word)
  {
    LacksLetter("Join the team ", 'l');
  }

  lemma Description3Piece2()
    ensures !Contains(LowerStr("distributing Zamzam "), Word)
  {
    LacksLetter("distributing Zamzam ", 'l');
  }

  lemma Description3Piece3()
    ensures !Contains(LowerStr("water to visitors at "), Word)
  {
    LacksLetter("water to visitors at ", 'l');
  }

  lemma Description3Piece4()
    ensures !Contains(LowerStr("designated areas."), Word)
  {
    LacksLetter("designated areas.", 'l');
  }

  lemma Description3LacksTranslation()
    ensures !Contains(LowerStr("Join the team " + "distributing Zamzam " + "water to visitors at " + "designated areas."), Word)
  {
    var a, b, c, d := "Join the team ", "distributing Zamzam ", "water to visitors at ", "designated areas.";
    assert "Join the team " + "distributing Zamzam " + "water to visitors at " + "designated areas." == a + (b + (c + d));
    Description3Piece1(); Description3Piece2(); Description3Piece3(); Description3Piece4();
    LacksAcrossSpace(c, d);
    LacksAcrossSpace(b, c + d);
    LacksAcrossSpace(a, b + (c + d));
  }

  lemma Record3LacksTranslation()
    ensures !Contains(LowerStr(MockOpportunities()[3].title), Word)
    ensures !Contains(LowerStr(MockOpportunities()[3].description), Word)
  {
    assert MockOpportunities()[3].title == "Water Distribution Team";
    Title3LacksTranslation();
    assert MockOpportunities()[3].description == "Join the team " + "distributing Zamzam " + "water to visitors at " + "designated areas.";
    Description3LacksTranslation();
  }

  lemma Title4Part1()
    ensures !Contains(LowerStr("Educational "), Word)
  {
    LacksLetter("Educational ", 'r');
  }

  lemma Title4Part2()
    ensures !Contains(LowerStr("Tours Guide"), Word)
  {
    LacksLetter("Tours Guide", 'n');
  }

  lemma Title4LacksTranslation()
    ensures !Contains(LowerStr("Educational Tours Guide"), Word)
  {
    var a, b := "Educational ", "Tours Guide";
    assert "Educational Tours Guide" == a + b;
    Title4Part1(); Title4Part2();
    LacksAcrossSpace(a, b);
  }

  lemma Description4Piece1Part1()
    ensures !Contains(LowerStr("Lead educational "), Word)
  {
    LacksLetter("Lead educational ", 'r');
  }

  lemma Description4Piece1Part2()
    ensures !Contains(LowerStr("tours "), Word)
  {
    LacksLetter("tours ", 'n');
  }

  lemma Description4Piece1()
    ensures !Contains(LowerStr("Lead educational tours "), Word)
  {
    var a, b := "Lead educational ", "tours ";
    assert "Lead educational tours " == a + b;
    Description4Piece1Part1(); Description4Piece1Part2();
    LacksAcrossSpace(a, b);
  }

  lemma Description4Piece2Part1()
    ensures !Contains(LowerStr("explaining "), Word)
  {
    LacksLetter("explaining ", 'r');
  }

  lemma Description4Piece2Part2()
    ensures !Contains(LowerStr("the history "), Word)
  {
    LacksLetter("the history ", 'n');
  }

  lemma Description4Piece2()
    ensures !Contains(LowerStr("explaining the history "), Word)
  {
    var a, b := "explaining ", "the history ";
    assert "explaining the history " == a + b;
    Description4Piece2Part1(); Description4Piece2Part2();
    LacksAcrossSpace(a, b);
  }

  lemma Description4Piece3()
    ensures !Contains(LowerStr("and significance of the "), Word)
  {
    LacksLetter("and significance of the ", 'r');
  }

  lemma Description4Piece4()
    ensures !Contains(LowerStr("Holy Mosques."), Word)
  {
    LacksLetter("Holy Mosques.", 't');
  }

  lemma Description4LacksTranslation()
    ensures !Contains(LowerStr("Lead educational tours " + "explaining the history " + "and significance of the " + "Holy Mosques."), Word)
  {
    var a, b, c, d := "Lead educational tours ", "explaining the history ", "and significance of the ", "Holy Mosques.";
    assert "Lead educational tours " + "explaining the history " + "and significance of the " + "Holy Mosques." == a + (b + (c + d));
    Description4Piece1(); Description4Piece2(); Description4Piece3(); Description4Piece4();
    LacksAcrossSpace(c, d);
    LacksAcrossSpace(b, c + d);
    LacksAcrossSpace(a, b + (c + d));
  }

  lemma Record4LacksTranslation()
    ensures !Contains(LowerStr(MockOpportunities()[4].title), Word)
    ensures !Contains(LowerStr(MockOpportunities()[4].description), Word)
  {
    assert MockOpportunities()[4].title == "Educational Tours Guide";
    Title4LacksTranslation();
    assert MockOpportunities()[4].description == "Lead educational tours " + "explaining the history " + "and significance of the " + "Holy Mosques.";
    Description4LacksTranslation();
  }

  lemma Title5Part1()
    ensures !Contains(LowerStr("Lost and "), Word)
  {
    LacksLetter("Lost and ", 'r');
  }

  lemma Title5Part2()
    ensures !Contains(LowerStr("Found Services"), Word)
  {
    LacksLetter("Found Services", 't');
  }

  lemma Title5LacksTranslation()
    ensures !Contains(LowerStr("Lost and Found Services"), Word)
  {
    var a, b := "Lost and ", "Found Services";
    assert "Lost and Found Services" == a + b;
    Title5Part1(); Title5Part2();
    LacksAcrossSpace(a, b);
  }

  lemma Description5Piece1()
    ensures !Contains(LowerStr("Help manage the lost "), Word)
  {
    LacksLetter("Help manage the lost ", 'r');
  }

  lemma Description5Piece2()
    ensures !Contains(LowerStr("and found department, "), Word)
  {
    LacksLetter("and found department, ", 's');
  }

  lemma Description5Piece3()
    ensures !Contains(LowerStr("assisting visitors in "), Word)
  {
    LacksLetter("assisting visitors in ", 'l');
  }

  lemma Description5Piece4()
    ensures !Contains(LowerStr("recovering their "), Word)
  {
    LacksLetter("recovering their ", 's');
  }

  lemma Description5Piece5()
    ensures !Contains(LowerStr("belongings."), Word)
  {
    LacksLetter("belongings.", 't');
  }

  lemma Description5LacksTranslation()
    ensures !Contains(LowerStr("Help manage the lost " + "and found department, " + "assisting visitors in " + "recovering their " + "belongings."), Word)
  {
    var a, b, c, d, e := "Help manage the lost ", "and found department, ", "assisting visitors in ", "recovering their ", "belongings.";
    assert "Help manage the lost " + "and found department, " + "assisting visitors in " + "recovering their " + "belongings." == a + (b + (c + (d + e)));
    Description5Piece1(); Description5Piece2(); Description5Piece3(); Description5Piece4(); Description5Piece5();
    LacksAcrossSpace(d, e);
    LacksAcrossSpace(c, d + e);
    LacksAcrossSpace(b, c + (d + e));
    LacksAcrossSpace(a, b + (c + (d + e)));
  }

  lemma Record5LacksTranslation()
    ensures !Contains(LowerStr(MockOpportunities()[5].title), Word)
    ensures !Contains(LowerStr(MockOpportunities()[5].description), Word)
  {
    assert MockOpportunities()[5].title == "Lost and Found Services";
    Title5LacksTranslation();
    assert MockOpportunities()[5].description == "Help manage the lost " + "and found department, " + "assisting visitors in " + "recovering their " + "belongings.";
    Description5LacksTranslation();
  }

  /** None of the other five mentions the search word in its title or description. */
  lemma OthersLackTranslation()
    ensures forall i :: 1 <= i < 6 ==>
      !Contains(LowerStr(MockOpportunities()[i].title), Word)
      && !Contains(LowerStr(MockOpportunities()[i].description), Word)
  {
    Record1LacksTranslation();
    Record2LacksTranslation();
    Record3LacksTranslation();
    Record4LacksTranslation();
    Record5LacksTranslation();
  }

  /** Searching the built-in data for "Translation" leaves only opportunity "1". */
  lemma SearchTranslationFindsOnlyFirst()
    ensures Filtered(MockOpportunities(), OpportunityQuery("Translation", "", "", "", "", 1, 6)) == [MockOpportunities()[0]]
    ensures MockOpportunities()[0].id == "1"
  {
    var data := MockOpportunities();
    var q := OpportunityQuery("Translation", "", "", "", "", 1, 6);
    LowerTranslation();
    FirstTitleHasTranslation();
    OthersLackTranslation();
    var hit := (o: Opportunity) => TextHit(o, q.search);
    assert hit(data[0]);
    assert forall i :: 1 <= i < 6 ==> !hit(data[i]);
    assert Filter(data[5..], hit) == [];
    assert Filter(data[4..], hit) == [];
    assert Filter(data[3..], hit) == [];
    assert Filter(data[2..], hit) == [];
    assert Filter(data[1..], hit) == [];
    assert Filter(data, hit) == [data[0]];
  }
}

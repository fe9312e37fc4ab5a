/** The examples documented on `extractIdFromUrl`, and a few URLs it rejects. */
module SwapiExamples {
  import opened Wrappers
  import opened Swapi

  /** The documented examples. */
  lemma ExtractIdExamples()
    ensures ExtractIdFromUrl("https://swapi.py4e.com/api/people/5/") == Success("5")
    ensures ExtractIdFromUrl("https://swapi.py4e.com/api/films/1/") == Success("1")
  {
    assert "https://swapi.py4e.com/api/people/5/" == "https://swapi.py4e.com/api/people" + "/" + "5" + "/";
    ExtractIdOfSegment("https://swapi.py4e.com/api/people", "5");
    assert "https://swapi.py4e.com/api/films/1/" == "https://swapi.py4e.com/api/films" + "/" + "1" + "/";
    ExtractIdOfSegment("https://swapi.py4e.com/api/films", "1");
  }

  /** The id is returned as text, so leading zeros are kept. */
  lemma ExtractIdKeepsLeadingZeros()
    ensures ExtractIdFromUrl("https://swapi.py4e.com/api/people/007/") == Success("007")
  {
    assert "https://swapi.py4e.com/api/people/007/" == "https://swapi.py4e.com/api/people" + "/" + "007" + "/";
    ExtractIdOfSegment("https://swapi.py4e.com/api/people", "007");
  }

  /** A non-numeric final segment does not match. */
  lemma ExtractIdRejectsWordExample()
    ensures ExtractIdFromUrl("/api/x/").Failure?
  {
    assert "/api/x/" == "/api/" + ['x'] + "" + "/";
    ExtractIdRejectsNonDigitSegment("/api/", 'x', "");
  }

  /** A signed final segment does not match: the pattern has no sign. */
  lemma ExtractIdRejectsSignedExample()
    ensures ExtractIdFromUrl("/people/-5/").Failure?
  {
    assert "/people/-5/" == "/people/" + ['-'] + "5" + "/";
    ExtractIdRejectsNonDigitSegment("/people/", '-', "5");
  }

  /** The documented person URL without its trailing slash does not match. */
  lemma ExtractIdMissingSlashExample()
    ensures ExtractIdFromUrl("https://swapi.py4e.com/api/people/5") == Failure(InvalidUrlMessage("https://swapi.py4e.com/api/people/5"))
  {
    ExtractIdRejectsMissingSlash("https://swapi.py4e.com/api/people/5");
  }
}

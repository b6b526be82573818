/** The greeting of learn-go-with-tests/01-go-fundamentals/01-hello-world/main.go. */
module HelloWorld {
  import opened GoStrings

  const HelloEnglish := "Hello"
  const HelloSpanish := "Ola"
  const FrenchHello := "Oi"
  const DefaultNameEnglish := "World"

  /** `GetHello`: "French" gives "Oi", "Spanish" gives "Ola", anything else "Hello". */
  function GetHello(language: string): (r: string)
    ensures r == FrenchHello <==> language == "French"
    ensures r == HelloSpanish <==> language == "Spanish"
    ensures r == HelloEnglish <==> language != "French" && language != "Spanish"
  {
    match language
    case "French" => FrenchHello
    case "Spanish" => HelloSpanish
    case _ => HelloEnglish
  }

  /** `Hello`: the language's word, ", ", the name ("World" when empty), then "!". */
  function Hello(name: string, language: string): (r: string)
    ensures HasPrefix(r, GetHello(language) + ", ")
    ensures HasSuffix(r, "!")
    ensures |r| >= |GetHello(language)| + 3
    ensures r[|GetHello(language)| + 2..|r| - 1] == (if |name| == 0 then DefaultNameEnglish else name)
  {
    var greeted := if |name| == 0 then DefaultNameEnglish else name;
    var hello := GetHello(language);
    var r := hello + ", " + greeted + "!";
    assert r[..|hello| + 2] == hello + ", ";
    assert r[|hello| + 2..|r| - 1] == greeted;
    r
  }

  /** The cases of main_test.go. */
  lemma HelloCases()
    ensures Hello("Naka", "") == "Hello, Naka!"
    ensures Hello("", "") == "Hello, World!"
    ensures Hello("Elodie", "Spanish") == "Ola, Elodie!"
  {
  }
}

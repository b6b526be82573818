/** The greeting of first/hello.go: a prefix chosen by language, then the name. */
module Hello {
  import opened GoStrings

  const EnglishHelloPrefix := "Hello, "
  const SpanishHelloPrefix := "Hola, "

  /** The prefix for a language. */
  function Prefix(language: string): string {
    if language == "Spanish" then SpanishHelloPrefix else EnglishHelloPrefix
  }

  /** `Hello`: "World" stands in for an empty name; "Spanish" selects "Hola, ", anything else "Hello, ". */
  function Hello(name: string, language: string): (r: string)
    ensures language == "Spanish" ==> HasPrefix(r, SpanishHelloPrefix)
    ensures language != "Spanish" ==> HasPrefix(r, EnglishHelloPrefix)
    ensures name == "" ==> HasSuffix(r, "World")
    ensures name != "" ==> HasSuffix(r, name)
    ensures |r| == (if language == "Spanish" then 6 else 7) + (if name == "" then 5 else |name|)
  {
    var greeted := if name == "" then "World" else name;
    var prefix := Prefix(language);
    assert (prefix + greeted)[..|prefix|] == prefix;
    assert (prefix + greeted)[|prefix|..] == greeted;
    prefix + greeted
  }

  /** Taking the language's prefix off a greeting gives back the name, or "World" for an empty one. */
  lemma NameRecovered(name: string, language: string)
    ensures TrimPrefix(Hello(name, language), Prefix(language)) == (if name == "" then "World" else name)
  {
    var r := Hello(name, language);
    var p := Prefix(language);
    assert HasPrefix(r, p);
    assert r == p + r[|p|..];
  }

  /** The cases of first/hello_test.go. */
  lemma HelloCases()
    ensures Hello("Chris", "English") == "Hello, Chris"
    ensures Hello("", "English") == "Hello, World"
    ensures Hello("Elodie", "Spanish") == "Hola, Elodie"
  {
  }
}

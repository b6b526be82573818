/**
 * The dictionary of dictionary.go: `Add` overwrites, `Update` refuses an
 * absent word, and both error constants carry the same message.
 */
module Dictionary {
  import opened Wrappers

  /** `DictionaryErr`: an error that is its message. */
  datatype DictionaryErr = DictionaryErr(message: string) {
    /** `Error()`: the message itself. */
    function Error(): string {
      message
    }
  }

  const ErrWordDoesNotExist := DictionaryErr("could not find the word you were looking for")
  const ErrWordExists := DictionaryErr("could not find the word you were looking for")

  /** Both constants are built from one string, so as values they are the same error. */
  lemma ErrorsCoincide()
    ensures ErrWordExists == ErrWordDoesNotExist
    ensures ErrWordExists.Error() == ErrWordDoesNotExist.Error()
  {
  }

  class Dictionary {
    var entries: map<string, string>

    constructor (initial: map<string, string>)
      ensures entries == initial
    {
      entries := initial;
    }

    /** `Search`: the definition and nil, or "" and ErrWordDoesNotExist. */
    method Search(word: string) returns (definition: string, err: Option<DictionaryErr>)
      ensures word in entries ==> definition == entries[word] && err == None
      ensures word !in entries ==> definition == "" && err == Some(ErrWordDoesNotExist)
    {
      if word !in entries {
        return "", Some(ErrWordDoesNotExist);
      }
      return entries[word], None;
    }

    /** `Add`: stores the definition whether or not the word was there. */
    method Add(key: string, value: string)
      modifies this
      ensures entries == old(entries)[key := value]
    {
      entries := entries[key := value];
    }

    /** `Update`: replaces a present word's definition; an absent word is an error and nothing is inserted. */
    method Update(key: string, value: string) returns (err: Option<DictionaryErr>)
      modifies this
      ensures old(key in entries) ==> err == None && entries == old(entries)[key := value]
      ensures old(key !in entries) ==> err == Some(ErrWordDoesNotExist) && entries == old(entries)
    {
      var _, searchErr := Search(key);
      if searchErr == Some(ErrWordDoesNotExist) {
        return Some(ErrWordDoesNotExist);
      } else if searchErr == None {
        entries := entries[key := value];
      } else {
        // the `default:` branch: Search returns no other error
        assert false;
        return searchErr;
      }
      return None;
    }
  }

  /** Adding a word twice keeps the second definition; updating an absent word fails. */
  method AddTwiceThenUpdateAbsent() returns (definition: string, err: Option<DictionaryErr>)
    ensures definition == "second"
    ensures err == Some(ErrWordDoesNotExist)
  {
    var d := new Dictionary(map[]);
    d.Add("word", "first");
    d.Add("word", "second");
    var e;
    definition, e := d.Search("word");
    err := d.Update("other", "x");
  }
}

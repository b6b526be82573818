/**
 * The dictionary of learn-go-with-tests/01-go-fundamentals/07-maps: a map
 * from words to definitions, changed in place, with typed errors.
 */
module MapsDictionary {
  import opened Wrappers

  /** `DictionaryErr`: an error that is its message. */
  datatype DictionaryErr = DictionaryErr(message: string) {
    /** `Error()`: the message itself. */
    function Error(): string {
      message
    }
  }

  const ErrNotFound := DictionaryErr("could not find the word you were looking for")
  const ErrWordExists := DictionaryErr("cannot add word because it already exists")
  const ErrWordDoesNotExist := DictionaryErr("word doesn't not exist")

  /** The three errors are told apart by their messages. */
  lemma ErrorsDistinct()
    ensures ErrNotFound.Error() != ErrWordExists.Error()
    ensures ErrNotFound.Error() != ErrWordDoesNotExist.Error()
    ensures ErrWordExists.Error() != ErrWordDoesNotExist.Error()
  {
    assert ErrNotFound.Error()[2] != ErrWordExists.Error()[2];
    assert ErrNotFound.Error()[0] != ErrWordDoesNotExist.Error()[0];
    assert ErrWordExists.Error()[0] != ErrWordDoesNotExist.Error()[0];
  }

  class Dictionary {
    var entries: map<string, string>

    constructor (initial: map<string, string>)
      ensures entries == initial
    {
      entries := initial;
    }

    /** `Search`: the definition and nil, or Go's zero value "" and ErrNotFound. */
    method Search(key: string) returns (definition: string, err: Option<DictionaryErr>)
      ensures key in entries ==> definition == entries[key] && err == None
      ensures key !in entries ==> definition == "" && err == Some(ErrNotFound)
    {
      if key !in entries {
        return "", Some(ErrNotFound);
      }
      return entries[key], None;
    }

    /** `Add`: inserts an absent word; a present word is an error and nothing changes. */
    method Add(key: string, value: string) returns (err: Option<DictionaryErr>)
      modifies this
      ensures old(key !in entries) ==> err == None && entries == old(entries)[key := value]
      ensures old(key in entries) ==> err == Some(ErrWordExists) && entries == old(entries)
    {
      var _, searchErr := Search(key);
      if searchErr == Some(ErrNotFound) {
        entries := entries[key := value];
      } else if searchErr == None {
        return Some(ErrWordExists);
      } else {
        // the `default:` branch: Search returns no other error
        assert false;
        return searchErr;
      }
      return None;
    }

    /** `Update`: replaces a present word's definition; an absent word is an error and nothing changes. */
    method Update(key: string, value: string) returns (err: Option<DictionaryErr>)
      modifies this
      ensures old(key in entries) ==> err == None && entries == old(entries)[key := value]
      ensures old(key !in entries) ==> err == Some(ErrWordDoesNotExist) && entries == old(entries)
    {
      var _, searchErr := Search(key);
      if searchErr == Some(ErrNotFound) {
        return Some(ErrWordDoesNotExist);
      } else if searchErr == None {
        entries := entries[key := value];
        return None;
      } else {
        // the `default:` branch: Search returns no other error
        assert false;
        return searchErr;
      }
    }

    /** `Delete`: removes the word; removing an absent word changes nothing. */
    method Delete(key: string)
      modifies this
      ensures entries == old(entries) - {key}
      ensures key !in entries
      ensures old(key !in entries) ==> entries == old(entries)
    {
      entries := entries - {key};
    }
  }

  /** A session as the exercise's tests run it: add, search, update, delete. */
  method AddSearchUpdateDelete() returns (found: string, err1: Option<DictionaryErr>, err2: Option<DictionaryErr>, gone: Option<DictionaryErr>)
    ensures found == "this is just a test"
    ensures err1 == Some(ErrWordExists)
    ensures err2 == Some(ErrWordDoesNotExist)
    ensures gone == Some(ErrNotFound)
  {
    var d := new Dictionary(map[]);
    var _ := d.Add("test", "this is just a test");
    var e;
    found, e := d.Search("test");
    err1 := d.Add("test", "new test");
    err2 := d.Update("unknown", "new test");
    d.Delete("test");
    var _, g := d.Search("test");
    gone := g;
  }
}

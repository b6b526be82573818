/**
 * The blog-post parser of first/reading-files/blogposts.go: three metadata
 * lines, a separator line that is skipped, then the body.
 */
module BlogPosts {
  import opened Wrappers
  import opened GoStrings
  import opened LineScanner

  datatype Post = Post(title: string, description: string, tags: seq<string>, body: string)

  const TitleSeparator := "Title: "
  const DescriptionSeparator := "Description: "
  const TagsSeparator := "Tags: "
  const TagSeparator := ", "

  /** Each line followed by a newline, as `fmt.Fprintln` writes them one after another. */
  function Terminated(lines: seq<string>): string
  {
    if |lines| == 0 then "" else Terminated(lines[..|lines| - 1]) + lines[|lines| - 1] + "\n"
  }

  /** For at least one line, the newline-terminated lines are their join plus a final newline. */
  lemma {:induction false} TerminatedJoin(lines: seq<string>)
    requires |lines| > 0
    ensures Terminated(lines) == Join(lines, "\n") + "\n"
  {
    if |lines| > 1 {
      var front := lines[..|lines| - 1];
      TerminatedJoin(front);
      JoinAppend(front, "\n", lines[|lines| - 1]);
      assert front + [lines[|lines| - 1]] == lines;
    }
  }

  /** The lines after the three metadata lines and the separator. */
  function BodyLines(lines: seq<string>): seq<string>
  {
    if |lines| > 4 then lines[4..] else []
  }

  /** The post that a file made of `lines` describes. */
  function ParsedPost(lines: seq<string>): Post
  {
    Post(
      TrimPrefix(LineAt(lines, 0), TitleSeparator),
      TrimPrefix(LineAt(lines, 1), DescriptionSeparator),
      Split(TrimPrefix(LineAt(lines, 2), TagsSeparator), TagSeparator),
      Join(BodyLines(lines), "\n"))
  }

  /** The lines of a file written in the expected layout. */
  function Rendered(title: string, description: string, tags: seq<string>, body: seq<string>): seq<string>
  {
    [TitleSeparator + title, DescriptionSeparator + description,
     TagsSeparator + Join(tags, TagSeparator), "---"] + body
  }

  /**
   * A file in the expected layout parses back to its parts: tags are
   * recovered when there is at least one and none holds a comma, and the
   * body lines come back joined by newlines.
   */
  lemma RenderedParses(title: string, description: string, tags: seq<string>, body: seq<string>)
    requires |tags| > 0
    requires forall i :: 0 <= i < |tags| ==> ',' !in tags[i]
    ensures ParsedPost(Rendered(title, description, tags, body))
         == Post(title, description, tags, Join(body, "\n"))
  {
    var lines := Rendered(title, description, tags, body);
    assert lines[0] == TitleSeparator + title;
    assert HasPrefix(lines[0], TitleSeparator);
    assert HasPrefix(lines[1], DescriptionSeparator);
    assert HasPrefix(lines[2], TagsSeparator);
    SplitJoin(tags, TagSeparator);
    assert BodyLines(lines) == body;
  }

  /** Joining the parsed tags with ", " gives the tags line (without its label) back. */
  lemma TagsLineRecovered(lines: seq<string>)
    ensures Join(ParsedPost(lines).tags, TagSeparator) == TrimPrefix(LineAt(lines, 2), TagsSeparator)
  {
    JoinSplit(TrimPrefix(LineAt(lines, 2), TagsSeparator), TagSeparator);
  }

  /** `readMetaLine`: read one line and drop the label in front of it. */
  method ReadMetaLine(scanner: Scanner, tagName: string) returns (value: string)
    requires scanner.Valid()
    modifies scanner
    ensures scanner.Valid()
    ensures scanner.pos == if old(scanner.pos) < |scanner.lines| then old(scanner.pos) + 1 else old(scanner.pos)
    ensures value == TrimPrefix(LineAt(scanner.lines, old(scanner.pos)), tagName)
  {
    var _ := scanner.Scan();
    value := TrimPrefix(scanner.text, tagName);
  }

  /**
   * `readBody`: skip one line, then copy every remaining line followed by a
   * newline, and drop the last newline.
   */
  method ReadBody(scanner: Scanner) returns (body: string)
    requires scanner.Valid()
    modifies scanner
    ensures scanner.Valid() && scanner.pos == |scanner.lines|
    ensures old(scanner.pos) < |scanner.lines| ==> body == Join(scanner.lines[old(scanner.pos) + 1..], "\n")
    ensures old(scanner.pos) >= |scanner.lines| ==> body == ""
  {
    var _ := scanner.Scan();
    ghost var start := scanner.pos;
    var buf := "";
    while true
      invariant scanner.Valid() && start <= scanner.pos
      invariant buf == Terminated(scanner.lines[start..scanner.pos])
      decreases |scanner.lines| - scanner.pos
    {
      var more := scanner.Scan();
      if !more {
        assert scanner.lines[start..scanner.pos] == scanner.lines[start..];
        break;
      }
      assert scanner.lines[start..scanner.pos] == scanner.lines[start..scanner.pos - 1] + [scanner.text];
      buf := buf + scanner.text + "\n";
    }
    var rest := scanner.lines[start..];
    if |rest| > 0 {
      TerminatedJoin(rest);
      assert HasSuffix(buf, "\n");
      assert TrimSuffix(buf, "\n") + "\n" == Join(rest, "\n") + "\n";
      assert TrimSuffix(buf, "\n") == (TrimSuffix(buf, "\n") + "\n")[..|buf| - 1];
    }
    body := TrimSuffix(buf, "\n");
  }

  /** `newPost`: the parsed post of the file's lines, and never an error. */
  method NewPost(lines: seq<string>) returns (post: Post, err: Option<string>)
    ensures post == ParsedPost(lines)
    ensures err == None
  {
    var scanner := new Scanner(lines);
    var title := ReadMetaLine(scanner, TitleSeparator);
    var description := ReadMetaLine(scanner, DescriptionSeparator);
    var tagsLine := ReadMetaLine(scanner, TagsSeparator);
    var tags := Split(tagsLine, TagSeparator);
    var body := ReadBody(scanner);
    post := Post(title, description, tags, body);
    err := None;
  }

  /** The first post of reading-files/blogposts_test.go. */
  method FirstPost() returns (post: Post)
    ensures post == Post("Post 1", "Description 1", ["tdd", "go"], "Hello\nWorld")
  {
    var tags := ["tdd", "go"];
    var body := ["Hello", "World"];
    assert Join(tags, TagSeparator) == "tdd, go";
    assert Join(body, "\n") == "Hello\nWorld";
    var lines := ["Title: Post 1", "Description: Description 1", "Tags: tdd, go", "---", "Hello", "World"];
    assert TitleSeparator + "Post 1" == lines[0];
    assert DescriptionSeparator + "Description 1" == lines[1];
    assert TagsSeparator + "tdd, go" == lines[2];
    assert lines == Rendered("Post 1", "Description 1", tags, body);
    RenderedParses("Post 1", "Description 1", tags, body);
    var err;
    post, err := NewPost(lines);
  }
}

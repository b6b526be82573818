/** The book of pragmatic-cases/ginkgo/book/book.go, classified by page count. */
module Book {
  datatype Book = Book(title: string, author: string, pages: int)

  const ShortStory := "SHORT STORY"
  const Novel := "NOVEL"

  /** `CategoryByLength`: more than 300 pages is a novel, anything else a short story. */
  function CategoryByLength(b: Book): (r: string)
    ensures r == Novel <==> b.pages > 300
    ensures r == ShortStory <==> b.pages <= 300
  {
    if b.pages > 300 then Novel else ShortStory
  }

  /** Title and author play no part in the category. */
  lemma CategoryIgnoresTitleAndAuthor(b: Book, title: string, author: string)
    ensures CategoryByLength(b) == CategoryByLength(Book(title, author, b.pages))
  {
  }
}

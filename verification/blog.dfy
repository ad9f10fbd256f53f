/**
 * The blog page (Blog.jsx): six posts per page, the pagination controls,
 * the category icon and colour tables, and the author's initials.
 */
module Blog {
  import opened JsSemantics

  datatype Post = Post(id: int, title: string, excerpt: string, author: string,
                       date: string, category: string, readTime: string)

  const PostsPerPage: nat := 6

  function Min(a: int, b: int): int
  {
    if a <= b then a else b
  }

  /* ---------------------------------------------------------------------- */
  /* Pagination arithmetic                                                   */
  /* ---------------------------------------------------------------------- */

  /** `Math.ceil(count / postsPerPage)`: the fewest pages of six that hold `count` posts. */
  function TotalPages(count: nat): (pages: nat)
    ensures pages * PostsPerPage >= count
    ensures pages > 0 ==> (pages - 1) * PostsPerPage < count
  {
    (count + PostsPerPage - 1) / PostsPerPage
  }

  /** `posts.slice(indexOfFirstPost, indexOfLastPost)` for `currentPage`. */
  function CurrentPosts<T>(posts: seq<T>, currentPage: int): seq<T>
  {
    var indexOfLastPost := currentPage * PostsPerPage;
    var indexOfFirstPost := indexOfLastPost - PostsPerPage;
    Slice(posts, indexOfFirstPost, indexOfLastPost)
  }

  /** Page `p` (from 1) holds exactly the posts at indices [6(p-1), min(6p, len)), in order. */
  lemma PageContents<T>(posts: seq<T>, page: int)
    requires page >= 1
    ensures Min(PostsPerPage * (page - 1), |posts|) <= Min(PostsPerPage * page, |posts|)
    ensures CurrentPosts(posts, page)
         == posts[Min(PostsPerPage * (page - 1), |posts|)..Min(PostsPerPage * page, |posts|)]
  {
  }

  /** Every page from 1 to the last holds between one and six posts. */
  lemma PageSize<T>(posts: seq<T>, page: int)
    requires 1 <= page <= TotalPages(|posts|)
    ensures 1 <= |CurrentPosts(posts, page)| <= PostsPerPage
  {
    PageContents(posts, page);
  }

  /** Pages 1 to `k`, concatenated. */
  function PagesUpTo<T>(posts: seq<T>, k: nat): seq<T>
  {
    if k == 0 then [] else PagesUpTo(posts, k - 1) + CurrentPosts(posts, k)
  }

  lemma {:induction false} PagesUpToIsPrefix<T>(posts: seq<T>, k: nat)
    ensures PagesUpTo(posts, k) == posts[..Min(PostsPerPage * k, |posts|)]
  {
    if k > 0 {
      PagesUpToIsPrefix(posts, k - 1);
      PageContents(posts, k);
      var a := Min(PostsPerPage * (k - 1), |posts|);
      var b := Min(PostsPerPage * k, |posts|);
      assert posts[..a] + posts[a..b] == posts[..b];
    }
  }

  /** Reading every page in turn gives back the whole list of posts. */
  lemma AllPagesGiveAllPosts<T>(posts: seq<T>)
    ensures PagesUpTo(posts, TotalPages(|posts|)) == posts
  {
    PagesUpToIsPrefix(posts, TotalPages(|posts|));
  }

  /* ---------------------------------------------------------------------- */
  /* Pagination controls                                                     */
  /* ---------------------------------------------------------------------- */

  /** The controls are drawn only when `totalPages > 1`. */
  predicate ShowPagination(count: nat)
  {
    TotalPages(count) > 1
  }

  /** The "previous" button is disabled on the first page. */
  predicate PrevDisabled(currentPage: int)
  {
    currentPage == 1
  }

  /** The "next" button is disabled on the last page. */
  predicate NextDisabled(currentPage: int, totalPages: nat)
  {
    currentPage == totalPages
  }

  lemma ShowPaginationIff(count: nat)
    ensures ShowPagination(count) <==> count > PostsPerPage
  {
  }

  /** The page buttons, numbered 1 to `totalPages`. */
  function PageNumbers(totalPages: nat): (r: seq<int>)
    ensures |r| == totalPages
    ensures forall i :: 0 <= i < totalPages ==> r[i] == i + 1
  {
    if totalPages == 0 then [] else PageNumbers(totalPages - 1) + [totalPages]
  }

  /* ---------------------------------------------------------------------- */
  /* Category tables and initials                                            */
  /* ---------------------------------------------------------------------- */

  const KnownCategories: set<string> :=
    {"Development", "Healthcare", "Education", "Environment", "Social Impact", "Finance"}

  const CategoryIcons: map<string, string> := map[
    "Development" := "Target",
    "Healthcare" := "Heart",
    "Education" := "BookOpen",
    "Environment" := "Leaf",
    "Social Impact" := "Users",
    "Finance" := "DollarSign"]

  const CategoryColors: map<string, string> := map[
    "Development" := "bg-blue-100 text-blue-600",
    "Healthcare" := "bg-red-100 text-red-600",
    "Education" := "bg-green-100 text-green-600",
    "Environment" := "bg-emerald-100 text-emerald-600",
    "Social Impact" := "bg-purple-100 text-purple-600",
    "Finance" := "bg-yellow-100 text-yellow-600"]

  /** `icons[category] || 'FileText'`. */
  function CategoryIcon(category: string): string
  {
    if category in CategoryIcons && TruthyString(CategoryIcons[category]) then CategoryIcons[category] else "FileText"
  }

  /** `colors[category] || 'bg-gray-100 text-gray-600'`. */
  function CategoryColor(category: string): string
  {
    if category in CategoryColors && TruthyString(CategoryColors[category]) then CategoryColors[category]
    else "bg-gray-100 text-gray-600"
  }

  /**
   * The six known categories get their own table entries; any other category
   * gets the generic icon and the grey colour, and only then.
   */
  lemma CategoryDefaults(category: string)
    ensures category in KnownCategories ==>
              CategoryIcon(category) == CategoryIcons[category] && CategoryColor(category) == CategoryColors[category]
    ensures CategoryIcon(category) == "FileText" <==> category !in KnownCategories
    ensures CategoryColor(category) == "bg-gray-100 text-gray-600" <==> category !in KnownCategories
  {
  }

  /** The index of the first space. */
  function FirstSpace(s: string): (i: nat)
    requires ' ' in s
    ensures i < |s| && s[i] == ' ' && ' ' !in s[..i]
  {
    if s[0] == ' ' then 0 else 1 + FirstSpace(s[1..])
  }

  /** `s.split(' ')`: the pieces between single spaces; consecutive spaces give empty pieces. */
  function Split(s: string): (words: seq<string>)
    ensures |words| >= 1
    ensures forall w :: w in words ==> ' ' !in w
    decreases |s|
  {
    if ' ' in s then
      var i := FirstSpace(s);
      [s[..i]] + Split(s[i + 1..])
    else [s]
  }

  /** `words.join(' ')`. */
  function JoinWithSpaces(words: seq<string>): string
    requires |words| >= 1
  {
    if |words| == 1 then words[0] else words[0] + " " + JoinWithSpaces(words[1..])
  }

  lemma JoinCons(w: string, words: seq<string>)
    requires |words| >= 1
    ensures JoinWithSpaces([w] + words) == w + " " + JoinWithSpaces(words)
  {
    assert ([w] + words)[1..] == words;
  }

  /** Splitting on spaces loses nothing: joining the pieces back gives the original string. */
  lemma {:induction false} SplitJoin(s: string)
    ensures JoinWithSpaces(Split(s)) == s
    decreases |s|
  {
    if ' ' in s {
      var i := FirstSpace(s);
      var w, rest := s[..i], s[i + 1..];
      SplitJoin(rest);
      assert Split(s) == [w] + Split(rest);
      JoinCons(w, Split(rest));
      assert s == w + " " + rest;
    } else {
      assert Split(s) == [s];
    }
  }

  /** `n[0]` joined into a string: a word's first character, or nothing for an empty word. */
  function FirstChar(word: string): string
  {
    if word == [] then [] else [word[0]]
  }

  function FirstChars(words: seq<string>): string
  {
    if words == [] then [] else FirstChar(words[0]) + FirstChars(words[1..])
  }

  /** `author.split(' ').map(n => n[0]).join('')`. */
  function Initials(author: string): string
  {
    FirstChars(Split(author))
  }

  /**
   * Reference reading of initials: the characters that begin a word, i.e.
   * non-space characters at the start or right after a space.
   * `afterSpace` says whether the position before `s` is a word boundary.
   */
  function WordStarts(s: string, afterSpace: bool): string
  {
    if s == [] then []
    else (if afterSpace && s[0] != ' ' then [s[0]] else []) + WordStarts(s[1..], s[0] == ' ')
  }

  lemma {:induction false} NoStartInsideWord(w: string, rest: string)
    requires ' ' !in w
    ensures WordStarts(w + " " + rest, false) == WordStarts(rest, true)
    decreases |w|
  {
    if w == [] {
      assert w + " " + rest == [' '] + rest;
    } else {
      assert (w + " " + rest)[1..] == w[1..] + " " + rest;
      NoStartInsideWord(w[1..], rest);
    }
  }

  lemma {:induction false} NoStartInsideLastWord(w: string)
    requires ' ' !in w
    ensures WordStarts(w, false) == []
    decreases |w|
  {
    if w != [] {
      NoStartInsideLastWord(w[1..]);
    }
  }

  /** A word followed by a space contributes its first character, then the rest starts afresh. */
  lemma WordThenRest(w: string, rest: string)
    requires ' ' !in w
    ensures WordStarts(w + " " + rest, true) == FirstChar(w) + WordStarts(rest, true)
  {
    var s := w + " " + rest;
    if w == [] {
      assert s == [' '] + rest;
      assert s[1..] == rest;
    } else {
      assert s[0] == w[0];
      assert s[1..] == w[1..] + " " + rest;
      assert ' ' !in w[1..] by {
        forall c | c in w[1..] ensures c != ' ' {
          assert c in w;
        }
      }
      NoStartInsideWord(w[1..], rest);
    }
  }

  /** A last word contributes its first character. */
  lemma LastWord(w: string)
    requires ' ' !in w
    ensures WordStarts(w, true) == FirstChar(w)
  {
    if w != [] {
      assert ' ' !in w[1..] by {
        forall c | c in w[1..] ensures c != ' ' {
          assert c in w;
        }
      }
      NoStartInsideLastWord(w[1..]);
    }
  }

  /** The initials are exactly the word-initial characters, in order. */
  lemma {:induction false} InitialsAreWordStarts(author: string)
    ensures Initials(author) == WordStarts(author, true)
    decreases |author|
  {
    if ' ' in author {
      var i := FirstSpace(author);
      var w, rest := author[..i], author[i + 1..];
      assert author == w + " " + rest;
      var words := Split(author);
      assert words == [w] + Split(rest);
      assert words[0] == w && words[1..] == Split(rest);
      InitialsAreWordStarts(rest);
      WordThenRest(w, rest);
      assert FirstChars(words) == FirstChar(w) + FirstChars(Split(rest));
    } else {
      LastWord(author);
      assert Split(author) == [author];
      assert FirstChars([author]) == FirstChar(author) + FirstChars([]);
    }
  }

  /* ---------------------------------------------------------------------- */
  /* Page state                                                              */
  /* ---------------------------------------------------------------------- */

  /** The page's state once its posts are loaded. */
  class BlogState {
    var posts: seq<Post>
    var currentPage: int

    /** The page number shown is one of the pages (page 1 when there are no posts). */
    ghost predicate Valid()
      reads this
    {
      1 <= currentPage && (currentPage == 1 || currentPage <= TotalPages(|posts|))
    }

    constructor (loaded: seq<Post>)
      ensures posts == loaded && currentPage == 1 && Valid()
    {
      posts := loaded;
      currentPage := 1;
    }

    /** The posts drawn on the current page. */
    function Visible(): (shown: seq<Post>)
      reads this
      requires Valid()
      ensures |shown| <= PostsPerPage
      ensures posts != [] ==> shown != []
      ensures forall p :: p in shown ==> p in posts
    {
      PageContents(posts, currentPage);
      CurrentPosts(posts, currentPage)
    }

    /** `handlePageChange(pageNumber)`: the page becomes exactly `pageNumber`, unclamped. */
    method HandlePageChange(pageNumber: int)
      modifies this
      ensures currentPage == pageNumber && posts == old(posts)
    {
      currentPage := pageNumber;
    }

    /** The "previous" button: does nothing while disabled, otherwise goes back one page. */
    method ClickPrevious()
      requires Valid() && ShowPagination(|posts|)
      modifies this
      ensures Valid() && posts == old(posts)
      ensures currentPage == if PrevDisabled(old(currentPage)) then old(currentPage) else old(currentPage) - 1
    {
      if !PrevDisabled(currentPage) {
        HandlePageChange(currentPage - 1);
      }
    }

    /** The "next" button: does nothing while disabled, otherwise goes forward one page. */
    method ClickNext()
      requires Valid() && ShowPagination(|posts|)
      modifies this
      ensures Valid() && posts == old(posts)
      ensures currentPage == if NextDisabled(old(currentPage), TotalPages(|posts|)) then old(currentPage)
                             else old(currentPage) + 1
    {
      if !NextDisabled(currentPage, TotalPages(|posts|)) {
        HandlePageChange(currentPage + 1);
      }
    }

    /** A numbered page button; the buttons carry the numbers 1 to `totalPages`. */
    method ClickPageNumber(pageNumber: int)
      requires Valid() && ShowPagination(|posts|)
      requires pageNumber in PageNumbers(TotalPages(|posts|))
      modifies this
      ensures Valid() && posts == old(posts) && currentPage == pageNumber
    {
      HandlePageChange(pageNumber);
    }
  }
}

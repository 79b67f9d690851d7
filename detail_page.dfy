/** The state of the two content pages, the article page and the video page. Both keep the same state
    (dark mode, the reader's like and bookmark marks, the related-content slide, the comments typed
    so far and the comment being typed) and update it with the same handlers; they differ only in the
    content they show. */
module DetailPage {
  import opened Text
  import opened Carousel

  datatype Direction = Left | Right

  /** The number of related items both pages carry. */
  const RelatedCount: nat := 4

  /** The comment list after a submit, and the input afterwards: a comment that is not all white space
      is appended as typed (untrimmed) and the input is cleared; otherwise nothing changes. */
  function AfterSubmit(comments: seq<string>, typed: string): (r: (seq<string>, string))
    ensures Trim(typed) != [] ==> r.0 == comments + [typed] && r.1 == ""
    ensures Trim(typed) == [] ==> r == (comments, typed)
  {
    if Trim(typed) != [] then (comments + [typed], "") else (comments, typed)
  }

  /** A submit appends exactly when the input holds a character that is not white space, and what it
      appends is the input exactly as typed, surrounding white space included. */
  lemma {:induction false} SubmitAppendsIff(comments: seq<string>, typed: string)
    ensures |AfterSubmit(comments, typed).0| == |comments| + 1 <==> !AllSpace(typed)
    ensures !AllSpace(typed) ==> AfterSubmit(comments, typed).0[|comments|] == typed
  {
    TrimEmptyIff(typed);
  }

  /** Surrounding white space is kept: " hi " is appended as it stands. */
  lemma {:induction false} UntrimmedCommentKept(comments: seq<string>)
    ensures AfterSubmit(comments, " hi ").0 == comments + [" hi "]
  {
    var typed := " hi ";
    assert !IsSpace(typed[1]);
    assert !AllSpace(typed);
    TrimEmptyIff(typed);
  }

  /** One content page: the shown counts are the content's own and never change. */
  class ContentPage {
    const related: nat
    const shownLikes: int
    const shownBookmarks: int
    var darkMode: bool
    var isLiked: bool
    var isBookmarked: bool
    var currentSlide: nat
    var comments: seq<string>
    var newComment: string

    /** The slide shown is one of the related items. */
    ghost predicate Valid()
      reads this
    {
      1 <= related && currentSlide < related
    }

    /** The article page as first rendered. */
    constructor Article()
      ensures Valid() && related == RelatedCount && shownLikes == 120 && shownBookmarks == 45
      ensures darkMode && !isLiked && !isBookmarked && currentSlide == 0 && comments == [] && newComment == ""
    {
      related, shownLikes, shownBookmarks := RelatedCount, 120, 45;
      darkMode, isLiked, isBookmarked := true, false, false;
      currentSlide, comments, newComment := 0, [], "";
    }

    /** The video page as first rendered. */
    constructor Video()
      ensures Valid() && related == RelatedCount && shownLikes == 150 && shownBookmarks == 60
      ensures darkMode && !isLiked && !isBookmarked && currentSlide == 0 && comments == [] && newComment == ""
    {
      related, shownLikes, shownBookmarks := RelatedCount, 150, 60;
      darkMode, isLiked, isBookmarked := true, false, false;
      currentSlide, comments, newComment := 0, [], "";
    }

    /** An arrow click: left steps back with a wrap at the first slide, right steps forward. Only the
        slide changes. */
    method ArrowClick(d: Direction)
      requires Valid()
      modifies this
      ensures Valid()
      ensures currentSlide == (if d == Left then PrevWrap(old(currentSlide), related) else Next(old(currentSlide), related))
      ensures darkMode == old(darkMode) && isLiked == old(isLiked) && isBookmarked == old(isBookmarked)
      ensures comments == old(comments) && newComment == old(newComment)
    {
      if d == Left {
        currentSlide := if currentSlide == 0 then related - 1 else currentSlide - 1;
      } else {
        currentSlide := (currentSlide + 1) % related;
      }
    }

    /** The five-second auto-advance: the same step as the right arrow. */
    method Tick()
      requires Valid()
      modifies this
      ensures Valid() && currentSlide == Next(old(currentSlide), related)
      ensures darkMode == old(darkMode) && isLiked == old(isLiked) && isBookmarked == old(isBookmarked)
      ensures comments == old(comments) && newComment == old(newComment)
    {
      currentSlide := (currentSlide + 1) % related;
    }

    /** A click on the dot of related item `index`. */
    method DotClick(index: nat)
      requires Valid() && index < related
      modifies this
      ensures Valid() && currentSlide == index
      ensures darkMode == old(darkMode) && isLiked == old(isLiked) && isBookmarked == old(isBookmarked)
      ensures comments == old(comments) && newComment == old(newComment)
    {
      currentSlide := index;
    }

    /** Typing into the comment box replaces the input. */
    method TypeComment(text: string)
      modifies this
      ensures newComment == text
      ensures darkMode == old(darkMode) && isLiked == old(isLiked) && isBookmarked == old(isBookmarked)
      ensures currentSlide == old(currentSlide) && comments == old(comments)
    {
      newComment := text;
    }

    /** The comment form's submit. */
    method SubmitComment()
      modifies this
      ensures (comments, newComment) == AfterSubmit(old(comments), old(newComment))
      ensures darkMode == old(darkMode) && isLiked == old(isLiked) && isBookmarked == old(isBookmarked)
      ensures currentSlide == old(currentSlide)
    {
      if Trim(newComment) != [] {
        comments := comments + [newComment];
        newComment := "";
      }
    }

    /** The heart button flips the reader's like mark; the shown like count stays the content's. */
    method ToggleLike()
      modifies this
      ensures isLiked == !old(isLiked)
      ensures darkMode == old(darkMode) && isBookmarked == old(isBookmarked)
      ensures currentSlide == old(currentSlide) && comments == old(comments) && newComment == old(newComment)
    {
      isLiked := !isLiked;
    }

    /** The bookmark button flips the reader's bookmark mark; the shown count stays the content's. */
    method ToggleBookmark()
      modifies this
      ensures isBookmarked == !old(isBookmarked)
      ensures darkMode == old(darkMode) && isLiked == old(isLiked)
      ensures currentSlide == old(currentSlide) && comments == old(comments) && newComment == old(newComment)
    {
      isBookmarked := !isBookmarked;
    }

    method ToggleDarkMode()
      modifies this
      ensures darkMode == !old(darkMode)
      ensures isLiked == old(isLiked) && isBookmarked == old(isBookmarked)
      ensures currentSlide == old(currentSlide) && comments == old(comments) && newComment == old(newComment)
    {
      darkMode := !darkMode;
    }
  }

  /** A visit to either page: right then left returns to the first slide, and a blank comment followed by
      a real one stores only the real one. */
  method Visit(page: ContentPage)
    requires page.Valid() && page.currentSlide == 0 && page.comments == []
    modifies page
    ensures page.Valid() && page.currentSlide == 0 && page.comments == ["nice"] && page.newComment == ""
  {
    var blank, typed := "   ", "nice";
    assert AllSpace(blank);
    TrimEmptyIff(blank);
    assert !IsSpace(typed[0]);
    TrimEmptyIff(typed);
    NextPrevInverse(0, page.related);
    page.ArrowClick(Right);
    page.ArrowClick(Left);
    page.TypeComment(blank);
    page.SubmitComment();
    page.TypeComment(typed);
    page.SubmitComment();
  }
}

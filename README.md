# news_crawlers in Dafny

The repository holds twelve scrapers. Each loads a page in a browser, parses the page source with
BeautifulSoup and returns one string. Ten of them scrape articles: Google News, The Times of India,
news.com.au, Vice, The Verge, MSNBC, a generic one, the Australian Financial Review, BBC Sport and ABC
News. They are one procedure with ten sets of constants:

- try a list of CSS selectors in order until one finds a container;
- MSNBC only: give up when the container holds a paywall marker;
- decompose unwanted classes, script-like tags and blank paragraphs inside the container;
- read the title, the author and the date;
- join the kept paragraphs into a body;
- report a paywall when the body is empty or mentions subscribing, registering or signing up;
- print the lines, stripped, with empty lines dropped.

The other two are Reddit's r/all and Hacker News, which have their own loops.

The model works on the parsed page. The page is a tree of `Node`s (`dom.dfy`). Selectors and the
BeautifulSoup searches are in `selectors.dfy`. The clean-up passes are in `pruning.dfy`. Each article
site is an `ArticleProfile` value (`profiles.dfy`), and `article.dfy` runs that one procedure on
whichever profile it is given.

`find_main_content` changes the `BeautifulSoup` object in place. The model therefore keeps the page in a
class, `Page.Soup`, whose field the clean-up methods reassign. Whatever the scraper reads afterwards
(the page-wide `soup.find('h1')`, author, date) is read from the cleaned page. `google_scenario.dfy`
shows the effect on Google News with a concrete page. The page has an `h1` in the original. That `h1`
sits inside `.article-header`, which the clean-up removes, so the result says "Title not found".

Text is read as BeautifulSoup 4.10 and later read it. Strings inside
`script`, `style`, `template`, `rt` and `rp` have their own string classes, so `.text` and
`stripped_strings` of an ordinary element skip them. `script_scenario.dfy` shows this with a generic
scraper page: the inline script in its only paragraph mentions subscribing, yet the paywall check never
sees it.

Each decompose loop has two forms:

- `Prune` is a function giving its net effect.
- `DecomposeMatches` is a loop that takes out the first element the rule still hits, and it is proved
  equal to `Prune`.

Parameters stand in for everything the browser supplies:

- the parsed page;
- whether `bypass_paywall` reported success;
- the live updates BBC Sport collects;
- the sequence of page heights Reddit's scroll loop reads.

The model follows the code, including where it does something other than what the scrapers appear to
intend:

- The author and the date are the text of the first element the selector group finds, even when that
  text is empty. They are not the first non-empty text.
- The body is judged empty on the joined string. Two kept paragraphs with blank text give `"\n\n"`,
  which is not empty (`Article.BodyEmpty`).
- Some scrapers decompose blank `p` elements without checking for media. There, a paragraph holding
  only an image is removed (`Sites.MediaParagraphs`).
- On Hacker News, a post row whose next row lacks a score or a user link raises `AttributeError`. A
  title link without `href` raises `KeyError`. A comment tree that is the story element itself makes
  `append` raise `ValueError`. These are error outcomes of the model, not preconditions.

## Model

| member | source | states |
|---|---|---|
| Strings.StripSpec | src/google_news_scraper.py:152 | `strip()` leaves no whitespace at either end, is empty exactly when the string is all whitespace, and keeps only characters of the input |
| Strings.JoinTrimmed | src/google_news_scraper.py:30-31 | joining stripped non-empty strings with a space gives a stripped string, and a non-empty one when there is a part |
| Strings.NormalizeLines | src/google_news_scraper.py:152 | the cleaned text's lines are exactly the input's lines, stripped, with the empty ones dropped, and each of them is non-empty, stripped and has no line break |
| Strings.NormalizeIdempotent | src/google_news_scraper.py:152 | cleaning the lines twice gives the same text as cleaning them once |
| Strings.NormalizeConcat | src/bbc_sport_scraper.py:104-108 | cleaning two texts joined by a line break gives the two cleaned texts joined by a line break, or the other one alone when one is empty |
| Strings.LinesOfJoin | src/reddit_r_all_scraper.py:106-108 | joining lines without line breaks by `"\n"` and splitting the result again gives back the same lines |
| Dom.ExtractTextTrimmed | src/google_news_scraper.py:30-31 | `extract_text` is stripped, and it is empty exactly when every string `stripped_strings` reads below the element is whitespace; for an ordinary element those are the plain strings, not the ones inside `script`, `style`, `template`, `rt` or `rp` |
| Dom.BlankIffTextStripsEmpty | src/google_news_scraper.py:63 | an element is blank, meaning every string of its own kind below it is whitespace, exactly when `element.text.strip()` is empty |
| ScriptScenario.ParaText | src/generic_news_scraper.py:14-15 | the text of `<p>Story<script>subscribe()</script></p>` is "Story", while the script's own text is "subscribe()" |
| ScriptScenario.ScriptDoesNotGate | src/generic_news_scraper.py:110-121 | on a page whose only paragraph is that one, the generic scraper finds the `article`, reads the body "Story" and returns it, though the script's text would have matched the paywall pattern |
| Dom.MovedLast | src/hacker_news_scraper.py:43 | `append` moves the comment tree into the story element: the element keeps its label and its own children, less the tree if the tree came from inside it, and the tree is its last child |
| Dom.RemoveAtSmaller | src/google_news_scraper.py:56-57 | decomposing an element makes the tree strictly smaller, so each decompose loop ends |
| Selectors.Tags | src/google_news_scraper.py:140 | a list of names given to `find_all` matches exactly the elements with one of those tags |
| Selectors.Classes | src/google_news_scraper.py:56 | `.a, .b, ...` matches exactly the elements with one of those classes |
| Selectors.SelectOne | src/google_news_scraper.py:46 | `select_one` finds nothing exactly when no descendant matches; otherwise it finds the first matching descendant in document order |
| Selectors.SelectAll | src/google_news_scraper.py:140 | `select` / `find_all` returns exactly the matching descendants |
| Selectors.MatchIndices | src/google_news_scraper.py:140 | the indices of the matching entries, each once, in increasing order |
| Selectors.SelectAllInOrder | src/google_news_scraper.py:140 | `select` / `find_all` lists every matching descendant once, in document order: entry `k` is the descendant at the `k`-th matching index |
| Selectors.SelectOneSelectAll | src/reddit_r_all_scraper.py:40 | `select_one` finds something exactly when `select` does, and it is the first thing `select` finds |
| Selectors.TextOr | src/google_news_scraper.py:134-135 | the placeholder when nothing was found, otherwise a stripped text |
| Pruning.ClassRule | src/google_news_scraper.py:49-57 | the unwanted-class pass targets exactly the elements with one of the listed classes |
| Pruning.TagRule | src/google_news_scraper.py:59-60 | the script-like-tags pass targets exactly the elements with one of the listed tags |
| Pruning.Prune | src/google_news_scraper.py:56-57 | one pass keeps the root and its label |
| Pruning.PruneDescFrom | src/google_news_scraper.py:56-57 | every element left after a pass was in the original at the same ancestors, and the pass does not target it |
| Pruning.PruneClean | src/google_news_scraper.py:56-57 | after a pass, no element that it targets is left below the container |
| Pruning.PruneNoHit | src/google_news_scraper.py:56-57 | a pass with nothing to target leaves the container unchanged |
| Pruning.PruneIdempotent | src/google_news_scraper.py:56-57 | running a pass a second time changes nothing |
| Pruning.BlankPrune | src/google_news_scraper.py:62-64 | the blank-paragraph pass never changes whether an element's plain text is blank, because blank elements hold no plain text and text inside a string container is never plain |
| Pruning.MediaPrune | src/news_com_au_scraper.py:63-65 | the media-keeping pass never changes whether an element contains an image or a video |
| Pruning.HitsPrune | src/news_com_au_scraper.py:63-65 | whether a pass targets an element does not depend on the pass having already run inside it |
| Pruning.PruneRemoveHit | src/google_news_scraper.py:62-64 | decomposing one targeted element first does not change what the pass produces |
| Pruning.FirstHit | src/google_news_scraper.py:62 | the first remaining element the pass targets, or none when it targets none |
| Pruning.DecomposeMatches | src/google_news_scraper.py:56-64 | the decompose loop, removing one targeted element after another in document order, ends with the pass's net effect |
| Pruning.LabelRuleKept | src/google_news_scraper.py:56-60 | a later pass cannot bring back an element that a class or tag pass removed |
| Pruning.PruneAllClean | src/google_news_scraper.py:49-64 | after all passes, nothing a class or tag pass targets is left, and nothing the last pass targets either |
| Pruning.PruneAllSnoc | src/google_news_scraper.py:49-64 | running the passes and then one more is running the extended list |
| Page.Soup.constructor | src/google_news_scraper.py:122 | the soup holds the parsed page |
| Page.Soup.CleanUp | src/google_news_scraper.py:56-57 | one pass changes the container in place, and the rest of the page is as it was |
| Page.Soup.Append | src/hacker_news_scraper.py:43 | `append` moves the element from its place into the target |
| Profiles.AllWellFormed | src/the_times_of_india_scraper.py:33-67 | every scraper's pass list has class or tag passes first and at most one blank-element pass, at the end |
| Locator.CascadeSpec | src/google_news_scraper.py:45-47 | the selector cascade finds nothing exactly when every selector misses; otherwise it finds what the first selector that finds anything finds |
| Locator.CascadePicks | src/google_news_scraper.py:45-47 | a selector that finds something, with every selector before it missing, decides the container, even when a later selector would find an earlier element |
| Locator.Locate | src/msnbc_scraper.py:34-41 | the container lies in the page at its path; a container found is the cascade's pick; there is none exactly when the cascade finds nothing or what it finds holds a paywall marker |
| Locator.LocateUnmarked | src/google_news_scraper.py:45-47 | without paywall markers, the container is what the cascade finds |
| Locator.RunPasses | src/msnbc_scraper.py:43-59 | the clean-up loops run in order on the container in place, and nothing outside the container changes |
| Locator.FindMainContent | src/msnbc_scraper.py:32-62 | `find_main_content` returns the container found in the original page and leaves the page with that container cleaned up |
| Article.Fragments | src/google_news_scraper.py:141-145 | at most one fragment per element; none exactly when no element passes the filter; each fragment stripped |
| Article.FragmentsFrom | src/generic_news_scraper.py:110-117 | the text of every kept element is a fragment, and every fragment is the text of a kept element |
| Article.FragmentsSingle | src/google_news_scraper.py:141-145 | one element gives its text when it is kept and nothing otherwise |
| Article.FragmentsAppend | src/google_news_scraper.py:141-145 | the fragments of two runs of elements are the first run's, then the second's; with `FragmentsSingle`, one text per kept element in element order |
| Article.Extract | src/google_news_scraper.py:123-152 | the not-found message exactly when there is no container; the paywall message exactly when there is one and the gate closes on its body; otherwise the cleaned full text |
| Article.ScrapeArticle | src/google_news_scraper.py:122-152 | the procedure run on a soup that `find_main_content` changes in place gives `Extract`'s result |
| Article.SuccessIsClean | src/google_news_scraper.py:151-152 | a successful result is already clean: cleaning it again changes nothing, and each line is non-empty, stripped and has no line break |
| Article.OneMentionBlocks | src/google_news_scraper.py:147-149 | one kept paragraph mentioning subscribing, registering or signing up makes a searching scraper report a paywall, unless it honours a successful bypass |
| Article.StructuralContainerEmpty | src/google_news_scraper.py:143 | a container under `aside`, `figure`, `header`, `footer` or `nav` gives an empty body, which a gated scraper reports as a paywall |
| Article.BypassIgnored | src/generic_news_scraper.py:119 | a scraper that does not honour the bypass gives the same result whatever the bypass reported |
| Article.BypassHonoured | src/google_news_scraper.py:147 | after a successful bypass, a scraper that honours it reports a paywall exactly when the body is empty |
| Article.BodyEmpty | src/google_news_scraper.py:141-147 | the body is empty exactly when no element is kept, or exactly one is kept and its text is blank |
| Article.LiveUpdatesAppended | src/bbc_sport_scraper.py:104-108 | with live updates, the result is the result without them, then "Live Updates:", then the updates' own clean lines |
| Article.UpdatesIgnored | src/google_news_scraper.py:151-152 | a scraper without live updates ignores any updates passed in |
| Article.ContainerIsClean | src/news_com_au_scraper.py:48-65 | nothing in the returned container matches a class or tag pass, nor the last pass |
| Paywall.MentionsIgnoresCase | src/google_news_scraper.py:147 | the search ignores case: folding the body first finds the same matches |
| Paywall.MentionsInContext | src/google_news_scraper.py:147 | a match anywhere in the body is found, whatever text surrounds it |
| Paywall.SignSepUp | src/google_news_scraper.py:147 | "sign" and "up", in any case, with nothing or one character other than a line break between them, are a match |
| Paywall.SignUpAcrossLines | src/google_news_scraper.py:147 | "sign", a line break, then "up" is not a match |
| Sites.MsnbcMarkerMeansNotFound | src/msnbc_scraper.py:35-41 | on MSNBC, an `article` holding a paywall marker gives the not-found message, and later selectors are not tried |
| Sites.VergeOwnClassFirst | src/the_verge_scraper.py:34-44 | on The Verge, `.l-col__main` wins wherever it is in the page |
| Sites.TimesOfIndiaMainSecond | src/the_times_of_india_scraper.py:34-46 | on The Times of India, a page without `article` but with `main` uses `main` |
| Sites.AbcLeavesPageAlone | src/abc_news_au_scraper.py:32-38 | ABC News's `find_main_content` changes nothing |
| Sites.NoPaywallReport | src/bbc_sport_scraper.py:89-108 | BBC Sport and ABC News never report a paywall, and once BBC Sport finds a container it succeeds |
| Sites.BypassResultUnused | src/australian_financial_review_scraper.py:110 | the generic scraper and the Financial Review give the same result whatever the bypass reported |
| Sites.TimesOfIndiaHeaderIsAClass | src/the_times_of_india_scraper.py:48-57 | the Times of India pass removes elements with class `header`, not `header` elements |
| Sites.GenericKeepsScripts | src/generic_news_scraper.py:62-63 | the generic scraper has one pass, which removes `aside` but keeps `script` |
| Sites.MediaParagraphs | src/news_com_au_scraper.py:63-65 | news.com.au keeps a blank paragraph holding an image but removes one holding a space; Google News removes the one holding an image |
| GoogleScenario.GoogleHeadlineRemoved | src/google_news_scraper.py:49-57 | a page whose only `h1` sits in `.article-header` has that `h1`, yet the result says "Title not found", because the clean-up removed it from the page first |
| Reddit.SettleSpec | src/reddit_r_all_scraper.py:73-80 | the scroll loop stops after the first scroll whose height equals the one before it, and only then |
| Reddit.ScrollToBottom | src/reddit_r_all_scraper.py:73-80 | the scroll loop, run over the heights it reads, ends as `Settle` says |
| Reddit.FirstNonEmpty | src/reddit_r_all_scraper.py:39-48 | nothing exactly when every selector finds nothing; otherwise every match of the first selector that finds something |
| Reddit.CleanContainers | src/reddit_r_all_scraper.py:43-45 | every container is cleaned, and the containers keep their order |
| Reddit.ContainersClean | src/reddit_r_all_scraper.py:43-45 | no container keeps a `.promoted`, `.ad-container` or `.sponsored-headline` element |
| Reddit.RecordsAt | src/reddit_r_all_scraper.py:92-106 | entry i of the records is the record built from post i, so there is one record per post, in order |
| Reddit.CollectPosts | src/reddit_r_all_scraper.py:92-108 | the loop and the join give the records joined by line breaks |
| Reddit.RecordLines | src/reddit_r_all_scraper.py:106 | when no field holds a line break, a record is its four labelled lines, `Title: ` first, then an empty line |
| Reddit.Scrape | src/reddit_r_all_scraper.py:86-90 | `NotFound`, whose `Message` is "Could not find the main content on the page.", exactly when no container selector finds anything |
| Reddit.ScrapeRedditAll | src/reddit_r_all_scraper.py:85-108 | the scraper from the parsed page on gives `Scrape`'s result |
| Reddit.PostsInOrder | src/reddit_r_all_scraper.py:106-108 | the output's lines are each post's lines one after another, in order |
| HackerNews.MainContent | src/hacker_news_scraper.py:32-47 | the first `table.itemlist` wins; nothing exactly when there is neither table nor `.fatitem`; on a story page, the first `.fatitem` alone exactly when there is no `table.comment-tree`, `ValueError` exactly when the first tree is that item, a cycle exactly when the tree encloses it, and otherwise the item with the tree to append, both at their places in the page |
| HackerNews.Container | src/hacker_news_scraper.py:32-47 | a container exists exactly for a front page or a story; it is the first `table.itemlist`, or the first `.fatitem` at its place after the move, and it lies in the page as `find_main_content` left it |
| HackerNews.CommentTreeLast | src/hacker_news_scraper.py:39-44 | on a story page whose first comment tree lies outside the first `.fatitem`, the tree becomes that item's last child and the container keeps the item's label |
| HackerNews.FindMainContent | src/hacker_news_scraper.py:32-47 | `find_main_content` returns what `MainContent` says and leaves the page as `PageAfter` says |
| HackerNews.NextTagged | src/hacker_news_scraper.py:94 | the first later sibling with the tag, or none when there is none |
| HackerNews.ParentOf | src/hacker_news_scraper.py:94 | the element holding a node, with the node at its index |
| HackerNews.NextRow | src/hacker_news_scraper.py:94 | `find_next_sibling('tr')` is the first `tr` element among the item's later siblings, and nothing exactly when no later sibling is a `tr` |
| HackerNews.PostRecord | src/hacker_news_scraper.py:96 | a post record, the f-string written as its labelled lines joined by line breaks, starts with `Title: ` |
| HackerNews.CommentRecord | src/hacker_news_scraper.py:102 | a comment record, its one line and the final line break, starts with `Comment by ` |
| HackerNews.PostRecordLines | src/hacker_news_scraper.py:96 | when no field holds a line break, a post record's lines are `Title: `, `URL: `, `Score: ` and `Author: ` with their fields, then an empty line |
| HackerNews.CommentRecordLines | src/hacker_news_scraper.py:102 | when neither field holds a line break, a comment record's lines are `Comment by {author}: {text}`, then an empty line |
| HackerNews.ClassifySpec | src/hacker_news_scraper.py:89-102 | a row with a title line is a post, even with comment text; otherwise a row with comment text is a comment; otherwise the row adds nothing; only `KeyError` and `AttributeError` escape |
| HackerNews.PostDetails | src/hacker_news_scraper.py:93-96 | without a following `tr`, a post gets the placeholders; with one, it raises exactly when that row lacks a score or a user link |
| HackerNews.MissingHref | src/hacker_news_scraper.py:93 | a title link without `href` raises `KeyError` |
| HackerNews.FirstRaise | src/hacker_news_scraper.py:89-102 | the first row that raises, or none when no row raises |
| HackerNews.CollectSpec | src/hacker_news_scraper.py:89-102 | the loop fails exactly when a row raises, with the first such row's exception; otherwise it gives the post and comment records in document order |
| HackerNews.CollectItems | src/hacker_news_scraper.py:87-102 | the loop, run with an early return, ends as `CollectFrom` says |
| HackerNews.Items | src/hacker_news_scraper.py:86 | the items are exactly the `tr.athing` descendants of the container, each once and in document order, and each lies below the container at its path |
| HackerNews.Scrape | src/hacker_news_scraper.py:79-104 | `NotFound`, whose `Message` is "Could not find the main content on the page.", exactly when there is no container; `ValueError` when the first comment tree is the first `.fatitem` itself |
| HackerNews.ScrapeSpec | src/hacker_news_scraper.py:86-104 | once there is a container, the result is the first row's exception or the records joined by line breaks |
| HackerNews.ScrapeHackerNews | src/hacker_news_scraper.py:78-104 | the scraper from the parsed page on gives `Scrape`'s result |

## Left out

- Driver start-up, navigation, the load wait and their failure messages, because they are browser I/O.
- `bypass_paywall`: its clicks are browser I/O, so its boolean result is a parameter of `Extract`.
- BBC Sport's `handle_live_updates`, because it reads the browser page. Its list of strings is a parameter.
- `time.sleep`, `logging` and each file's `__main__` block, including the generic scraper's URL loop, because none of them change the returned string.
- The HTML parser, because the model starts from the parsed tree. Comments, doctype and CDATA are not distinguished from text nodes.
- ExtractTextTrimmed: the kind of string an element reads is decided from the element itself. Below an ordinary element, strings inside `script`, `style`, `template`, `rt` and `rp` are skipped, as in BeautifulSoup 4.10 and later. An element that itself lies inside one of those containers is still read from its own subtree. BeautifulSoup instead gives its strings the container's class and reads nothing from it.
- BlankIffTextStripsEmpty: blankness is decided from the element's own subtree too. It has the same limit as ExtractTextTrimmed for an element inside `script`, `style`, `template`, `rt` or `rp`.
- Whitespace outside ASCII, because `strip()` and `splitlines()` are modelled on the ASCII whitespace and line-break characters only.
- Reddit.CleanContainers: each container is cleaned as an independent value. A container nested inside an earlier one shares its elements in BeautifulSoup, and that sharing is not modelled.
- HackerNews.Scrape: a comment tree that encloses the story would make `append` build a cycle. That case is the outcome `Cyclic`, and the model says nothing about what the source does then.
- Pruning.DecomposeMatches: after an element is decomposed, the source's loop still visits the elements that were inside it, and decomposing them again changes nothing. The model states the net effect and does not model those visits.
- Reddit.ScrollToBottom: the source loops forever when the page never stops growing. The model reads a finite sequence of heights and reports `StillGrowing` when they run out.
- Paywall.Fold: `re.IGNORECASE` is modelled on the pattern's letters only, namely the ASCII letters plus long s, dotless i and capital I with a dot. That is enough for this fixed pattern.

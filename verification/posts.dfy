/**
 * Posts and the blogs that list them: every blog keeps an ordered list of
 * the ids of its posts, which post creation, moving a post to another blog
 * and post deletion maintain. Also the dispatch of an uploaded post medium.
 */
module Posts {
  import opened Wrappers
  import opened Http
  import opened Users
  import opened TokenLists
  import opened FileType

  type BlogId = string
  type PostId = string
  type ContentId = string

  datatype Blog = Blog(title: string, author: UserId, posts: seq<PostId>)
  datatype Post = Post(title: string, media: ContentId)

  datatype CreatePostDto = CreatePostDto(title: string, blogId: BlogId, contentId: ContentId)
  datatype UpdatePostDto = UpdatePostDto(title: Option<string>, blogId: Option<BlogId>, contentId: Option<ContentId>)

  const MsgBlogNotFound := "Blog not found"

  predicate Distinct(s: seq<PostId>)
  {
    forall i, j :: 0 <= i < j < |s| ==> s[i] != s[j]
  }

  /** Every post id is listed by at most one blog, and at most once there. */
  ghost predicate ListedOnce(blogs: map<BlogId, Blog>)
  {
    && (forall a, b, p :: a in blogs && b in blogs && p in blogs[a].posts && p in blogs[b].posts ==> a == b)
    && (forall b :: b in blogs ==> Distinct(blogs[b].posts))
  }

  /**
   * The ownership test `create` and `update` apply: the blog exists and its
   * own id equals the caller's user id. The blog's `author` plays no part.
   */
  predicate MayPostTo(blogs: map<BlogId, Blog>, blogId: BlogId, userId: UserId)
  {
    blogId in blogs && blogId == userId
  }

  /** The author of a blog, whose id is not the blog's id, is refused. */
  lemma AuthorIsRefused(blogs: map<BlogId, Blog>, blogId: BlogId)
    requires blogId in blogs && blogs[blogId].author != blogId
    ensures !MayPostTo(blogs, blogId, blogs[blogId].author)
  {
  }

  /** `blog.posts.push(p)` saved. */
  function Appended(blogs: map<BlogId, Blog>, b: BlogId, p: PostId): (r: map<BlogId, Blog>)
    requires b in blogs
    ensures r.Keys == blogs.Keys
    ensures forall x :: x in blogs && x != b ==> r[x] == blogs[x]
    ensures r[b].posts == blogs[b].posts + [p]
  {
    blogs[b := blogs[b].(posts := blogs[b].posts + [p])]
  }

  /** `blog.posts = blog.posts.filter(id => id !== p)` saved. */
  function Removed(blogs: map<BlogId, Blog>, b: BlogId, p: PostId): (r: map<BlogId, Blog>)
    requires b in blogs
    ensures r.Keys == blogs.Keys
    ensures forall x :: x in blogs && x != b ==> r[x] == blogs[x]
    ensures p !in r[b].posts
    ensures forall q :: q != p ==> (q in r[b].posts <==> q in blogs[b].posts)
  {
    blogs[b := blogs[b].(posts := Without(blogs[b].posts, p))]
  }

  /** Putting an id that is not in a repeat-free list in front keeps it repeat-free. */
  lemma DistinctCons(x: PostId, rest: seq<PostId>)
    requires Distinct(rest) && x !in rest
    ensures Distinct([x] + rest)
  {
    var l := [x] + rest;
    forall i, j | 0 <= i < j < |l| ensures l[i] != l[j] {
      assert l[j] == rest[j - 1];
      if i > 0 { assert l[i] == rest[i - 1]; }
    }
  }

  /** Dropping entries keeps a list free of repeats. */
  lemma {:induction false} WithoutKeepsDistinct(s: seq<PostId>, p: PostId)
    requires Distinct(s)
    ensures Distinct(Without(s, p))
  {
    if s != [] {
      var rest := s[1..];
      assert Distinct(rest) by {
        forall i, j | 0 <= i < j < |rest| ensures rest[i] != rest[j] {
          assert rest[i] == s[i + 1] && rest[j] == s[j + 1];
        }
      }
      WithoutKeepsDistinct(rest, p);
      if s[0] != p {
        assert s[0] !in rest by {
          forall k | 0 <= k < |rest| ensures rest[k] != s[0] {
            assert rest[k] == s[k + 1];
          }
        }
        DistinctCons(s[0], Without(rest, p));
      }
    }
  }

  /** Appending a post that no blog lists keeps every post listed once, by exactly that blog. */
  lemma AppendFreshKeepsListedOnce(blogs: map<BlogId, Blog>, b: BlogId, p: PostId)
    requires ListedOnce(blogs) && b in blogs
    requires forall x :: x in blogs ==> p !in blogs[x].posts
    ensures ListedOnce(Appended(blogs, b, p))
    ensures forall x :: x in blogs ==> (p in Appended(blogs, b, p)[x].posts <==> x == b)
  {
    var r := Appended(blogs, b, p);
    var s := blogs[b].posts;
    assert Distinct(r[b].posts) by {
      forall i, j | 0 <= i < j < |r[b].posts| ensures r[b].posts[i] != r[b].posts[j] {
        if j == |s| {
          assert s[i] in s;
        }
      }
    }
  }

  /** Removing a post from the blog that lists it leaves it listed nowhere, and changes no other membership. */
  lemma RemoveKeepsListedOnce(blogs: map<BlogId, Blog>, b: BlogId, p: PostId)
    requires ListedOnce(blogs) && b in blogs && p in blogs[b].posts
    ensures ListedOnce(Removed(blogs, b, p))
    ensures forall x :: x in blogs ==> p !in Removed(blogs, b, p)[x].posts
    ensures forall x, q :: x in blogs && q != p ==> (q in Removed(blogs, b, p)[x].posts <==> q in blogs[x].posts)
  {
    WithoutKeepsDistinct(blogs[b].posts, p);
  }

  /** Moving a post: after removal from its blog and appending to the target, exactly the target lists it. */
  lemma MoveKeepsListedOnce(blogs: map<BlogId, Blog>, from: BlogId, to: BlogId, p: PostId)
    requires ListedOnce(blogs) && from in blogs && to in blogs && p in blogs[from].posts
    ensures ListedOnce(Appended(Removed(blogs, from, p), to, p))
    ensures forall x :: x in blogs ==> (p in Appended(Removed(blogs, from, p), to, p)[x].posts <==> x == to)
    ensures forall x, q :: x in blogs && q != p ==>
      (q in Appended(Removed(blogs, from, p), to, p)[x].posts <==> q in blogs[x].posts)
  {
    RemoveKeepsListedOnce(blogs, from, p);
    AppendFreshKeepsListedOnce(Removed(blogs, from, p), to, p);
  }

  /** The fields `findByIdAndUpdate` writes: a field absent from the request keeps its value. */
  function Patched(post: Post, data: UpdatePostDto): (r: Post)
    ensures r.title == (if data.title.Some? then data.title.value else post.title)
    ensures r.media == (if data.contentId.Some? then data.contentId.value else post.media)
  {
    Post(
      if data.title.Some? then data.title.value else post.title,
      if data.contentId.Some? then data.contentId.value else post.media)
  }

  /** Whether `if (postData.blogId)` holds: present and not the empty string. */
  predicate Moves(data: UpdatePostDto)
  {
    data.blogId.Some? && data.blogId.value != ""
  }

  /** The `blogs` collection. */
  class BlogCollection {
    var blogs: map<BlogId, Blog>

    constructor(blogs: map<BlogId, Blog>)
      ensures this.blogs == blogs
    {
      this.blogs := blogs;
    }

    /** `blogModel.findOne({ posts: p })`: some blog listing `p`, or `null`. */
    method FindListing(p: PostId) returns (r: Option<BlogId>)
      ensures r.Some? ==> r.value in blogs && p in blogs[r.value].posts
      ensures r.None? <==> forall b :: b in blogs ==> p !in blogs[b].posts
    {
      if exists b :: b in blogs && p in blogs[b].posts {
        var b :| b in blogs && p in blogs[b].posts;
        r := Some(b);
      } else {
        r := None;
      }
    }

    /** Saving a blog after `posts.push(p)`. */
    method Push(b: BlogId, p: PostId)
      requires b in blogs
      modifies this
      ensures blogs == Appended(old(blogs), b, p)
    {
      blogs := Appended(blogs, b, p);
    }

    /** Saving a blog after reassigning `posts` to the filtered list. */
    method Pull(b: BlogId, p: PostId)
      requires b in blogs
      modifies this
      ensures blogs == Removed(old(blogs), b, p)
    {
      blogs := Removed(blogs, b, p);
    }
  }

  /** The `posts` collection. */
  class PostCollection {
    var posts: map<PostId, Post>

    constructor(posts: map<PostId, Post>)
      ensures this.posts == posts
    {
      this.posts := posts;
    }
  }

  class PostsService {
    const postModel: PostCollection
    const blogModel: BlogCollection

    constructor(postModel: PostCollection, blogModel: BlogCollection)
      ensures this.postModel == postModel && this.blogModel == blogModel
    {
      this.postModel := postModel;
      this.blogModel := blogModel;
    }

    /**
     * `create`: a missing blog is NotFound, checked before ownership; a blog
     * the caller may not post to is Forbidden; otherwise the new post is
     * stored and its id appended to the blog's list. `newId` is the id
     * Mongo assigns.
     */
    method Create(userId: UserId, post: CreatePostDto, newId: PostId) returns (r: Result<Post, Error>)
      requires newId !in postModel.posts
      modifies postModel, blogModel
      ensures post.blogId !in old(blogModel.blogs) ==> r == Failure(NotFound(MsgBlogNotFound))
      ensures post.blogId in old(blogModel.blogs) && post.blogId != userId ==> r == Failure(Forbidden)
      ensures r.Success? <==> MayPostTo(old(blogModel.blogs), post.blogId, userId)
      ensures r.Failure? ==> blogModel.blogs == old(blogModel.blogs) && postModel.posts == old(postModel.posts)
      ensures r.Success? ==>
        && r.value == Post(post.title, post.contentId)
        && postModel.posts == old(postModel.posts)[newId := r.value]
        && blogModel.blogs == Appended(old(blogModel.blogs), post.blogId, newId)
      ensures r.Success? && ListedOnce(old(blogModel.blogs)) && (forall b :: b in old(blogModel.blogs) ==> newId !in old(blogModel.blogs)[b].posts) ==>
        ListedOnce(blogModel.blogs)
    {
      if post.blogId !in blogModel.blogs {
        return Failure(NotFound(MsgBlogNotFound));
      }
      if post.blogId != userId {
        return Failure(Forbidden);
      }
      var newPost := Post(post.title, post.contentId);
      ghost var before := blogModel.blogs;
      blogModel.Push(post.blogId, newId);
      postModel.posts := postModel.posts[newId := newPost];
      if ListedOnce(before) && forall b :: b in before ==> newId !in before[b].posts {
        AppendFreshKeepsListedOnce(before, post.blogId, newId);
      }
      r := Success(newPost);
    }

    /**
     * `update`: with a (non-empty) `blogId`, the target must exist and pass
     * the ownership test; the post's id is then pulled from the blog listing
     * it and pushed onto the target. A listing blog that cannot be found, or
     * a post that does not exist, fails with the TypeError of reading a
     * property of `null` (the second one after the pull was saved). Then the
     * given fields are written.
     */
    method Update(userId: UserId, postId: PostId, postData: UpdatePostDto) returns (r: Result<Post, Error>)
      modifies postModel, blogModel
      ensures Moves(postData) && postData.blogId.value !in old(blogModel.blogs) ==>
        r == Failure(NotFound(MsgBlogNotFound)) && blogModel.blogs == old(blogModel.blogs)
      ensures Moves(postData) && postData.blogId.value in old(blogModel.blogs) && postData.blogId.value != userId ==>
        r == Failure(Forbidden) && blogModel.blogs == old(blogModel.blogs)
      ensures Moves(postData) && MayPostTo(old(blogModel.blogs), postData.blogId.value, userId) &&
        (forall b :: b in old(blogModel.blogs) ==> postId !in old(blogModel.blogs)[b].posts)
        ==> r == Failure(TypeError) && blogModel.blogs == old(blogModel.blogs)
      ensures (&& Moves(postData) && MayPostTo(old(blogModel.blogs), postData.blogId.value, userId)
               && postId !in old(postModel.posts)
               && exists b :: b in old(blogModel.blogs) && postId in old(blogModel.blogs)[b].posts) ==>
        && r == Failure(TypeError)
        && exists from :: from in old(blogModel.blogs) && postId in old(blogModel.blogs)[from].posts &&
             blogModel.blogs == Removed(old(blogModel.blogs), from, postId)
      ensures r.Success? <==>
        postId in old(postModel.posts) &&
        (Moves(postData) ==>
          MayPostTo(old(blogModel.blogs), postData.blogId.value, userId) &&
          exists b :: b in old(blogModel.blogs) && postId in old(blogModel.blogs)[b].posts)
      ensures r.Failure? ==> postModel.posts == old(postModel.posts)
      ensures r.Failure? && !(Moves(postData) && MayPostTo(old(blogModel.blogs), postData.blogId.value, userId)) ==>
        blogModel.blogs == old(blogModel.blogs)
      ensures !Moves(postData) ==> blogModel.blogs == old(blogModel.blogs)
      ensures !Moves(postData) && postId !in old(postModel.posts) ==> r == Failure(TypeError)
      ensures r.Success? ==>
        && r.value == Patched(old(postModel.posts)[postId], postData)
        && postModel.posts == old(postModel.posts)[postId := r.value]
      ensures r.Success? && Moves(postData) ==>
        exists from :: from in old(blogModel.blogs) && postId in old(blogModel.blogs)[from].posts &&
          blogModel.blogs == Appended(Removed(old(blogModel.blogs), from, postId), postData.blogId.value, postId)
      ensures r.Success? && Moves(postData) && ListedOnce(old(blogModel.blogs)) ==>
        && ListedOnce(blogModel.blogs)
        && forall b :: b in blogModel.blogs ==> (postId in blogModel.blogs[b].posts <==> b == postData.blogId.value)
    {
      var updatedPost := postId in postModel.posts;
      if Moves(postData) {
        var target := postData.blogId.value;
        if target !in blogModel.blogs {
          return Failure(NotFound(MsgBlogNotFound));
        }
        if target != userId {
          return Failure(Forbidden);
        }
        var oldBlog := blogModel.FindListing(postId);
        if oldBlog.None? {
          return Failure(TypeError);
        }
        ghost var before := blogModel.blogs;
        blogModel.Pull(oldBlog.value, postId);
        if !updatedPost {
          return Failure(TypeError);
        }
        blogModel.Push(target, postId);
        if ListedOnce(before) {
          MoveKeepsListedOnce(before, oldBlog.value, target, postId);
        }
      }
      if !updatedPost {
        return Failure(TypeError);
      }
      var post := Patched(postModel.posts[postId], postData);
      postModel.posts := postModel.posts[postId := post];
      r := Success(post);
    }

    /**
     * `delete`: a post that does not exist fails with a TypeError before
     * anything changes; otherwise the post is deleted and then pulled from
     * the blog listing it, a TypeError if no blog lists it.
     */
    method Delete(postId: PostId) returns (r: Result<(), Error>)
      modifies postModel, blogModel
      ensures postId !in old(postModel.posts) ==>
        r == Failure(TypeError) && postModel.posts == old(postModel.posts) && blogModel.blogs == old(blogModel.blogs)
      ensures postId in old(postModel.posts) ==> postModel.posts == old(postModel.posts) - {postId}
      ensures r.Success? <==>
        postId in old(postModel.posts) && exists b :: b in old(blogModel.blogs) && postId in old(blogModel.blogs)[b].posts
      ensures r.Failure? ==> r.error == TypeError && blogModel.blogs == old(blogModel.blogs)
      ensures r.Success? ==>
        exists b :: b in old(blogModel.blogs) && postId in old(blogModel.blogs)[b].posts &&
          blogModel.blogs == Removed(old(blogModel.blogs), b, postId)
      ensures r.Success? && ListedOnce(old(blogModel.blogs)) ==>
        && ListedOnce(blogModel.blogs)
        && forall b :: b in blogModel.blogs ==> postId !in blogModel.blogs[b].posts
    {
      if postId !in postModel.posts {
        return Failure(TypeError);
      }
      postModel.posts := postModel.posts - {postId};
      var blog := blogModel.FindListing(postId);
      if blog.None? {
        return Failure(TypeError);
      }
      ghost var before := blogModel.blogs;
      blogModel.Pull(blog.value, postId);
      if ListedOnce(before) {
        RemoveKeepsListedOnce(before, blog.value, postId);
      }
      r := Success(());
    }
  }

  /** Where `addPostMedia` sends a file: through the 4096x4096 resize first, or straight to upload. */
  datatype MediaRoute = ResizeThenUpload | UploadAsIs

  /** The list `addPostMedia` tests, as written: bare extensions without the dot. */
  const ImageExtensionsAsWritten: seq<string> := ["jpg", "png", "svg"]

  /** The image test with the dotted extensions `path.extname` produces. */
  const ImageExtensions: seq<string> := [".jpg", ".png", ".svg"]

  /** The whitelist of the post media upload route. */
  const PostMediaExtensions: seq<string> := [".jpg", ".png", ".svg", ".mp4"]

  /** `addPostMedia` as written. */
  function MediaRouteAsWritten(filename: string): MediaRoute
  {
    if ToLower(ExtName(filename)) in ImageExtensionsAsWritten then ResizeThenUpload else UploadAsIs
  }

  /** `addPostMedia` with the image list the upload whitelist uses. */
  function MediaRouteOf(filename: string): MediaRoute
  {
    if ToLower(ExtName(filename)) in ImageExtensions then ResizeThenUpload else UploadAsIs
  }

  /** Lower-casing keeps a leading dot. */
  lemma LowerKeepsDot(e: string)
    requires e == [] || e[0] == '.'
    ensures ToLower(e) == [] || ToLower(e)[0] == '.'
  {
  }

  /** No string that is empty or starts with a dot is an entry of the undotted image list. */
  lemma DottedIsNoBareEntry(e: string)
    requires e == [] || e[0] == '.'
    ensures e !in ImageExtensionsAsWritten
  {
  }

  /** As written, no file name reaches the resize branch, since every extension is empty or starts with a dot. */
  lemma ImageBranchUnreachable(filename: string)
    ensures MediaRouteAsWritten(filename) == UploadAsIs
  {
    var e := ExtName(filename);
    LowerKeepsDot(e);
    DottedIsNoBareEntry(ToLower(e));
  }

  /** `ToLower` distributes over concatenation. */
  lemma {:induction false} ToLowerConcat(a: string, b: string)
    ensures ToLower(a + b) == ToLower(a) + ToLower(b)
  {
    if a == [] {
      assert a + b == b;
    } else {
      assert (a + b)[1..] == a[1..] + b;
      ToLowerConcat(a[1..], b);
    }
  }

  /** Prefixing a dot is injective. */
  lemma DotPrefixInjective(a: string, b: string)
    ensures "." + a == "." + b <==> a == b
  {
    if "." + a == "." + b {
      assert a == ("." + a)[1..];
    }
  }

  /** A dotted extension is in the dotted image list exactly when the bare one is in the bare list. */
  lemma DottedImageList(l: string)
    ensures "." + l in ImageExtensions <==> l in ImageExtensionsAsWritten
  {
    assert ".jpg" == "." + "jpg" && ".png" == "." + "png" && ".svg" == "." + "svg";
    DotPrefixInjective(l, "jpg");
    DotPrefixInjective(l, "png");
    DotPrefixInjective(l, "svg");
  }

  /** With the dotted list, `stem.ext` is resized exactly when its lower-cased ext is jpg, png or svg. */
  lemma ImagesAreResized(stem: string, ext: string)
    requires stem != [] && '/' !in stem
    requires ext != [] && '.' !in ext && '/' !in ext
    ensures MediaRouteOf(stem + "." + ext) == ResizeThenUpload <==> ToLower(ext) in ImageExtensionsAsWritten
  {
    ExtNameOfStemAndExt(stem, ext);
    ToLowerConcat(".", ext);
    assert ToLower(".") == ".";
    DottedImageList(ToLower(ext));
  }

  /** Every image the upload whitelist lets through is resized by the corrected test and by none as written. */
  lemma AcceptedImagesRouted(filename: string)
    requires ToLower(ExtName(filename)) in PostMediaExtensions && ToLower(ExtName(filename)) != ".mp4"
    ensures MediaRouteOf(filename) == ResizeThenUpload
    ensures MediaRouteAsWritten(filename) == UploadAsIs
  {
    ImageBranchUnreachable(filename);
  }

  /** The concrete input: `photo.jpg` is not resized as written... */
  lemma PhotoJpgAsWritten()
    ensures MediaRouteAsWritten("photo.jpg") == UploadAsIs
  {
    ImageBranchUnreachable("photo.jpg");
  }

  /** ...and is resized with the dotted list. */
  lemma PhotoJpgResized()
    ensures MediaRouteOf("photo.jpg") == ResizeThenUpload
  {
    assert "photo" + "." + "jpg" == "photo.jpg";
    assert ToLower("jpg") == "jpg" by {
      assert |ToLower("jpg")| == 3;
    }
    ImagesAreResized("photo", "jpg");
  }
}

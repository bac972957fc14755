/** The photo blog: creating a post under the trimmed title-and-content check,
    and liking a post. */
module PhotoBlog {
  import opened Wrappers
  import Lists
  import Text

  datatype Place = Place(latitude: real, longitude: real, name: string)

  /** A post; `timestamp` is in milliseconds. */
  datatype Post = Post(
    id: int,
    title: string,
    content: string,
    image: Option<string>,
    location: Option<Place>,
    author: string,
    timestamp: int,
    likes: int,
    comments: int)

  /** The create form; image and location stay null until picked. */
  datatype NewPost = NewPost(title: string, content: string, image: Option<string>, location: Option<Place>)

  /** The screen's state slots. */
  datatype BlogState = BlogState(posts: seq<Post>, showCreatePost: bool, newPost: NewPost)

  const EmptyForm: NewPost := NewPost("", "", None, None)

  const InitialPosts: seq<Post> := [
    Post(1, "Amazing Sunset in Bali",
         "Witnessed the most beautiful sunset today at Tanah Lot temple. The colors were absolutely breathtaking!",
         Some("https://picsum.photos/400/300?random=1"), Some(Place(-8.6215, 115.0869, "Tanah Lot, Bali")),
         "TravelBuddy123", 1705276800000, 24, 5),
    Post(2, "Mountain Hiking Adventure",
         "Completed a challenging hike to the summit. The view was worth every step! Perfect weather and amazing trail companions.",
         Some("https://picsum.photos/400/300?random=2"), Some(Place(46.5197, 7.4815, "Swiss Alps")),
         "MountainExplorer", 1704844800000, 18, 3)
  ]

  const Initial: BlogState := BlogState(InitialPosts, false, EmptyForm)

  /** `createPost` at instant `now`: a blank title or content (after trimming)
      changes nothing; otherwise a post with id one past the list length, the
      form's fields as typed (image and location possibly null), author 'You'
      and no likes or comments goes to the front, the form is reset and the
      create view closed. */
  function CreatePost(s: BlogState, now: int): (r: BlogState)
    ensures Text.IsBlank(s.newPost.title) || Text.IsBlank(s.newPost.content) ==> r == s
    ensures !Text.IsBlank(s.newPost.title) && !Text.IsBlank(s.newPost.content) ==>
      var f := s.newPost;
      && |r.posts| == |s.posts| + 1
      && r.posts[1..] == s.posts
      && r.posts[0] == Post(|s.posts| + 1, f.title, f.content, f.image, f.location, "You", now, 0, 0)
      && r.newPost == EmptyForm && !r.showCreatePost
  {
    var f := s.newPost;
    if Text.IsBlank(f.title) || Text.IsBlank(f.content) then s
    else
      var post := Post(|s.posts| + 1, f.title, f.content, f.image, f.location, "You", now, 0, 0);
      BlogState([post] + s.posts, false, EmptyForm)
  }

  /** The ids are distinct and lie in 1..n, so they are exactly 1..n in some order. */
  predicate WellNumbered(posts: seq<Post>) {
    && (forall k :: 0 <= k < |posts| ==> 1 <= posts[k].id <= |posts|)
    && (forall i, j :: 0 <= i < j < |posts| ==> posts[i].id != posts[j].id)
  }

  /** With the list only ever growing at the front, `length + 1` is always a
      fresh id: creating keeps the ids distinct. */
  lemma CreateKeepsWellNumbered(s: BlogState, now: int)
    requires WellNumbered(s.posts)
    ensures WellNumbered(CreatePost(s, now).posts)
    ensures WellNumbered(Initial.posts)
  {
    var r := CreatePost(s, now);
    if !Text.IsBlank(s.newPost.title) && !Text.IsBlank(s.newPost.content) {
      assert r.posts == [r.posts[0]] + s.posts;
      PrependFreshId(r.posts[0], s.posts);
    }
  }

  /** A post numbered one past the list keeps the ids distinct and in range. */
  lemma PrependFreshId(p: Post, posts: seq<Post>)
    requires WellNumbered(posts) && p.id == |posts| + 1
    ensures WellNumbered([p] + posts)
  {
    var r := [p] + posts;
    assert forall k :: 1 <= k < |r| ==> r[k] == posts[k - 1];
  }

  /** `likePost(postId)`: one more like on every post with that id; the others,
      their order and the length are kept. */
  function LikePost(posts: seq<Post>, postId: int): (r: seq<Post>)
    ensures |r| == |posts|
    ensures forall k :: 0 <= k < |posts| ==>
      r[k] == if posts[k].id == postId then posts[k].(likes := posts[k].likes + 1) else posts[k]
    decreases |posts|
  {
    if posts == [] then []
    else [if posts[0].id == postId then posts[0].(likes := posts[0].likes + 1) else posts[0]]
         + LikePost(posts[1..], postId)
  }

  function LikesOf(p: Post): int { p.likes }

  /** A like raises the total like count by the number of posts with that id
      (one, for an id shown on the screen when ids are distinct). */
  lemma {:induction false} LikePostTotal(posts: seq<Post>, postId: int)
    ensures Lists.Sum(LikePost(posts, postId), LikesOf)
         == Lists.Sum(posts, LikesOf) + Lists.Count(posts, (p: Post) => p.id == postId)
    decreases |posts|
  {
    if posts != [] {
      LikePostTotal(posts[1..], postId);
      var r := LikePost(posts, postId);
      assert r[1..] == LikePost(posts[1..], postId);
    }
  }

  /** With distinct ids, exactly one post has a given id that occurs. */
  lemma {:induction false} DistinctIdsCountOnce(posts: seq<Post>, k: int)
    requires WellNumbered(posts) && 0 <= k < |posts|
    ensures Lists.Count(posts, (p: Post) => p.id == posts[k].id) == 1
  {
    var id := posts[k].id;
    var p := (x: Post) => x.id == id;
    assert posts == posts[..k] + [posts[k]] + posts[k + 1..];
    Lists.FilterConcat(posts[..k] + [posts[k]], posts[k + 1..], p);
    Lists.FilterConcat(posts[..k], [posts[k]], p);
    Lists.FilterKeepsOrMisses(posts[k], p);
    Lists.FilterNonePass(posts[..k], p);
    Lists.FilterNonePass(posts[k + 1..], p);
  }
}

/**
 * The post model of posts/models.py: articles attached to a category, their
 * defaults, printable form and image upload path.
 */
module PostModel {
  import opened Text

  /** One article. `category` is a category id, `author` the author's username. */
  datatype Post = Post(
    id: nat,
    title: string,
    author: string,
    category: nat,
    body: string,
    available: bool,
    tag: string)

  /** A post created with the model's defaults: unpublished, tagged 'IT'. */
  function NewPost(id: nat, title: string, author: string, category: nat, body: string): (p: Post)
    ensures !p.available && p.tag == "IT"
    ensures p.id == id && p.title == title && p.author == author && p.category == category && p.body == body
  {
    Post(id, title, author, category, body, false, "IT")
  }

  /** `Post.__str__`. */
  function PostStr(p: Post): string {
    p.title
  }

  const PostImageDir: string := "post_images/"

  /** `post_image_path`: the title with every space turned into '_', an underscore, then the file name. */
  function PostImagePath(p: Post, filename: string): (path: string)
    ensures IsPrefix(PostImageDir, path)
    ensures |path| == |PostImageDir| + |p.title| + 1 + |filename|
    ensures path[|PostImageDir| + |p.title|] == '_'
    ensures path[|path| - |filename|..] == filename
  {
    PostImageDir + ReplaceChar(PostStr(p), ' ', '_') + "_" + filename
  }

  /** The title part of the path has the title's length, no spaces, and every other character kept. */
  lemma PostImagePathTitle(p: Post, filename: string)
    ensures var part := PostImagePath(p, filename)[|PostImageDir|..|PostImageDir| + |p.title|];
            ' ' !in part &&
            forall i :: 0 <= i < |p.title| ==> part[i] == (if p.title[i] == ' ' then '_' else p.title[i])
  {
    var t := ReplaceChar(p.title, ' ', '_');
    var path := PostImagePath(p, filename);
    assert path == PostImageDir + t + "_" + filename;
    assert path[|PostImageDir|..|PostImageDir| + |p.title|] == t;
    ReplaceCharClears(p.title, ' ', '_');
  }
}

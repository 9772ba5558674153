/**
 * The category and question models of questions/models.py: the three
 * difficulty levels, the columns and their defaults, the printable forms and
 * the upload paths of category and question images.
 */
module QuestionModel {
  import opened Wrappers
  import opened Text

  /** The difficulty levels NEWBIE, AVERAGE and SMARTYPANTS. */
  datatype Level = Newbie | Average | Smartypants

  /** The two-letter code stored in the `difficulty_level` column. */
  function LevelCode(l: Level): string {
    match l
    case Newbie => "NB"
    case Average => "AV"
    case Smartypants => "SP"
  }

  /** Reading a stored code back; `None` for anything outside the three choices. */
  function LevelFromCode(code: string): (r: Option<Level>)
    ensures r.Some? <==> code in {"NB", "AV", "SP"}
  {
    if code == "NB" then Some(Newbie)
    else if code == "AV" then Some(Average)
    else if code == "SP" then Some(Smartypants)
    else None
  }

  /** Codes and levels are in one-to-one correspondence. */
  lemma LevelCodeRoundTrip(l: Level, code: string)
    ensures LevelFromCode(LevelCode(l)) == Some(l)
    ensures LevelFromCode(code) == Some(l) ==> LevelCode(l) == code
  {
  }

  const DefaultLevel: Level := Newbie

  datatype Category = Category(id: nat, name: string, description: string, available: bool)

  /**
   * One question. `subject` is the id of its category, `author` the username
   * of its author (the foreign key points at `username`).
   */
  datatype Question = Question(
    id: nat,
    question: string,
    subject: nat,
    author: string,
    rightAnswer: string,
    answer01: string,
    answer02: string,
    answer03: string,
    answer04: string,
    level: Level,
    available: bool,
    tag: string)

  /** A category created with the model's defaults is published at once. */
  function NewCategory(id: nat, name: string, description: string): (c: Category)
    ensures c.available && c.id == id && c.name == name
  {
    Category(id, name, description, true)
  }

  /**
   * A question created with the model's defaults: unpublished until an admin
   * publishes it, level NB, tag 'IT', every answer slot 'default'.
   */
  function NewQuestion(id: nat, text: string, subject: nat, author: string): (q: Question)
    ensures !q.available && q.level == DefaultLevel && q.tag == "IT"
    ensures q.rightAnswer == q.answer01 == "default"
    ensures q.id == id && q.question == text && q.subject == subject && q.author == author
  {
    Question(id, text, subject, author, "default", "default", "default", "default", "default", Newbie, false, "IT")
  }

  /** `QuestionCategory.__str__`. */
  function CategoryStr(c: Category): string {
    c.name
  }

  /** `Question.__str__`. */
  function QuestionStr(q: Question): string {
    q.question
  }

  const CategoryImageDir: string := "cat_images/"
  const QuestionImageDir: string := "que_images/"

  /** `category_image_path`: the category name, an underscore, then the file name. */
  function CategoryImagePath(c: Category, filename: string): (path: string)
    ensures IsPrefix(CategoryImageDir + c.name + "_", path)
    ensures |path| == |CategoryImageDir| + |c.name| + 1 + |filename|
    ensures path[|path| - |filename|..] == filename
  {
    CategoryImageDir + c.name + "_" + filename
  }

  /**
   * `question_image_path`: one folder per category (named by the category's
   * printable form, its name), then the question text with every space turned
   * into '_', an underscore and the file name.
   */
  function QuestionImagePath(q: Question, subject: Category, filename: string): (path: string)
    requires subject.id == q.subject
    ensures IsPrefix(QuestionImageDir + subject.name + "/", path)
    ensures |path| == |QuestionImageDir| + |subject.name| + 1 + |q.question| + 1 + |filename|
    ensures forall i :: 0 <= i < |q.question| ==>
              path[|QuestionImageDir| + |subject.name| + 1 + i] == (if q.question[i] == ' ' then '_' else q.question[i])
    ensures path[|QuestionImageDir| + |subject.name| + 1 + |q.question|] == '_'
    ensures path[|path| - |filename|..] == filename
  {
    QuestionImageDir + CategoryStr(subject) + "/" + ReplaceChar(QuestionStr(q), ' ', '_') + "_" + filename
  }

  /** The question part of the image path holds no space: each space became '_' and every other character is kept. */
  lemma QuestionImagePathText(q: Question, subject: Category, filename: string)
    requires subject.id == q.subject
    ensures var start := |QuestionImageDir| + |subject.name| + 1;
            var part := QuestionImagePath(q, subject, filename)[start..start + |q.question|];
            ' ' !in part &&
            forall i :: 0 <= i < |q.question| ==> part[i] == (if q.question[i] == ' ' then '_' else q.question[i])
  {
    var start := |QuestionImageDir| + |subject.name| + 1;
    var path := QuestionImagePath(q, subject, filename);
    var t := ReplaceChar(q.question, ' ', '_');
    assert path == QuestionImageDir + subject.name + "/" + t + "_" + filename;
    assert path[start..start + |q.question|] == t;
    ReplaceCharClears(q.question, ' ', '_');
  }
}

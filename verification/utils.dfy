/** The text and colour helpers of client/src/lib/utils.ts. */
module Utils {
  import opened Schema

  /** `substring(0, n)` clamps a negative end to 0. */
  function Clamp(n: int): nat {
    if n < 0 then 0 else n
  }

  /** `truncateText(text, maxLength)`; `None` stands for an absent (`undefined`/`null`) text. */
  function TruncateText(text: Option<string>, maxLength: int): (r: string)
    // empty or absent text: ""
    ensures !Truthy(text) ==> r == ""
    // short enough: unchanged
    ensures Truthy(text) && |text.value| <= maxLength ==> r == text.value
    // too long: a proper prefix of the text, then "...", `maxLength + 3` long in all
    ensures Truthy(text) && |text.value| > maxLength ==>
              |r| == Clamp(maxLength) + 3 && r[|r| - 3..] == "..." &&
              r[..|r| - 3] <= text.value && |r[..|r| - 3]| < |text.value|
    // never longer than the bound allows
    ensures |r| <= Clamp(maxLength) + 3 || r == text.value
  {
    if !Truthy(text) then ""
    else if |text.value| <= maxLength then text.value
    else text.value[..Clamp(maxLength)] + "..."
  }

  /** Truncating twice with the same bound is truncating once. */
  lemma TruncateIdempotent(text: Option<string>, maxLength: int)
    ensures TruncateText(Some(TruncateText(text, maxLength)), maxLength) == TruncateText(text, maxLength)
  {
    var r := TruncateText(text, maxLength);
    if Truthy(text) && |text.value| > maxLength {
      assert r[..Clamp(maxLength)] == text.value[..Clamp(maxLength)];
    }
  }

  datatype ClassPair = ClassPair(bg: string, text: string)

  /** `` `${bg} ${text}` ``. */
  function Classes(p: ClassPair): string {
    p.bg + " " + p.text
  }

  const Green := ClassPair("bg-green-100 dark:bg-green-900/30", "text-green-600 dark:text-green-400")
  const Blue := ClassPair("bg-blue-100 dark:bg-blue-900/30", "text-blue-600 dark:text-blue-400")
  const Purple := ClassPair("bg-purple-100 dark:bg-purple-900/30", "text-purple-600 dark:text-purple-400")
  const Yellow := ClassPair("bg-yellow-100 dark:bg-yellow-900/30", "text-yellow-600 dark:text-yellow-400")
  const Indigo := ClassPair("bg-indigo-100 dark:bg-indigo-900/30", "text-indigo-600 dark:text-indigo-400")
  const Red := ClassPair("bg-red-100 dark:bg-red-900/30", "text-red-600 dark:text-red-400")

  /** The own entries of `colorMap`. */
  const ColorMap: map<string, ClassPair> := map[
    "#10b981" := Green, "#3b82f6" := Blue, "#8b5cf6" := Purple,
    "#f59e0b" := Yellow, "#6366f1" := Indigo, "#ef4444" := Red]

  /** `getTagColorClasses(color)` as intended: a listed colour gets its pair, any other
      string (compared exactly) gets blue. */
  function TagColorClasses(color: string): (r: string)
    ensures color in ColorMap ==> r == Classes(ColorMap[color])
    ensures color !in ColorMap ==> r == Classes(Blue)
  {
    Classes(if color in ColorMap then ColorMap[color] else Blue)
  }

  /** The answer is blue exactly for blue itself and for every unlisted colour. */
  lemma BlueIffUnlisted(color: string)
    ensures TagColorClasses(color) == Classes(Blue) <==> color == "#3b82f6" || color !in ColorMap
  {
    if color in ColorMap && color != "#3b82f6" {
      var p := ColorMap[color];
      // only blue's background starts "bg-b"
      assert p.bg[3] != 'b';
      assert TagColorClasses(color)[3] != 'b';
    }
  }

  /** Each listed colour, keyed by the initial of its colour name in the class string. */
  const ColorByInitial: map<char, string> := map[
    'g' := "#10b981", 'b' := "#3b82f6", 'p' := "#8b5cf6",
    'y' := "#f59e0b", 'i' := "#6366f1", 'r' := "#ef4444"]

  /** A listed colour's classes name the colour they came from. */
  lemma ClassesNameTheirColor(color: string)
    requires color in ColorMap
    ensures TagColorClasses(color)[3] in ColorByInitial && ColorByInitial[TagColorClasses(color)[3]] == color
  {
    assert TagColorClasses(color)[3] == ColorMap[color].bg[3];
  }

  /** Different listed colours give different classes. */
  lemma ListedColorsAreDistinct(c1: string, c2: string)
    requires c1 in ColorMap && c2 in ColorMap && c1 != c2
    ensures TagColorClasses(c1) != TagColorClasses(c2)
  {
    ClassesNameTheirColor(c1);
    ClassesNameTheirColor(c2);
  }

  /** Names every plain object inherits from `Object.prototype`; `colorMap[name]` finds
      a function (or, for `__proto__`, the prototype object) there, which is truthy. */
  const PrototypeNames: set<string> := {
    "constructor", "__defineGetter__", "__defineSetter__", "hasOwnProperty",
    "__lookupGetter__", "__lookupSetter__", "isPrototypeOf", "propertyIsEnumerable",
    "toString", "valueOf", "__proto__", "toLocaleString"}

  /** `getTagColorClasses` as written: an inherited member defeats the `||` default and its
      `bg` and `text` read as `undefined`. */
  function TagColorClassesAsWritten(color: string): (r: string)
    ensures color !in PrototypeNames ==> r == TagColorClasses(color)
    ensures color in PrototypeNames ==> r == "undefined undefined"
  {
    if color in ColorMap then Classes(ColorMap[color])
    else if color in PrototypeNames then "undefined" + " " + "undefined"
    else Classes(Blue)
  }

  /** A tag whose colour is "constructor" gets no classes at all, not the blue default. */
  lemma ConstructorColorLosesDefault()
    ensures TagColorClassesAsWritten("constructor") != TagColorClasses("constructor")
  {
    assert "constructor" !in ColorMap;
    assert TagColorClasses("constructor")[0] == 'b';
  }
}

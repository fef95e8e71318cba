/** Vocabulary shared by the server routes: an optional value for request-body
    fields that may be absent, the authenticated principal, and the JavaScript
    string operations the routes rely on (String.prototype.trim, the regular
    expression class \s and String.prototype.length). */
module Common {

  datatype Option<T> = None | Some(value: T)

  /** A route's JSON response: a status code with a body, or an error status
      with the `msg` text the route sends. */
  datatype Reply<T> = Success(status: int, value: T) | Failure(status: int, msg: string)

  /** User ids are ObjectIds compared through toString(), so a string here. */
  type UserId = string

  /** What the authentication middleware attaches to a request as req.user.
      The id is always there; whether a display name is there depends on the
      token contents, so it is optional. */
  datatype Principal = Principal(id: UserId, name: Option<string>)

  /** A request-body field as a JSON value. Absent also stands for a falsy
      value that is not a string (null, false, 0), since every route treats
      those as missing; NonString is any other value that is not a string (a
      non-zero number, true, an object, an array). */
  datatype Field = Absent | Str(text: string) | NonString

  /** The characters JavaScript treats as white space in trim() and in the
      regular-expression class \s: WhiteSpace (TAB, VT, FF, SPACE, NBSP,
      ZWNBSP and the Unicode Zs category) plus LineTerminator (LF, CR, LS, PS). */
  predicate IsJsWhitespace(c: char) {
    || c == '\U{0009}' || c == '\U{000A}' || c == '\U{000B}' || c == '\U{000C}'
    || c == '\U{000D}' || c == '\U{0020}' || c == '\U{00A0}' || c == '\U{1680}'
    || ('\U{2000}' <= c <= '\U{200A}')
    || c == '\U{2028}' || c == '\U{2029}' || c == '\U{202F}' || c == '\U{205F}'
    || c == '\U{3000}' || c == '\U{FEFF}'
  }

  predicate AllWhitespace(s: string) {
    forall k :: 0 <= k < |s| ==> IsJsWhitespace(s[k])
  }

  /** The index of the first character at or after i that is not white
      space, or |s| when there is none. */
  function TrimStartIndex(s: string, i: nat): (r: nat)
    requires i <= |s|
    ensures i <= r <= |s|
    ensures forall k :: i <= k < r ==> IsJsWhitespace(s[k])
    ensures r < |s| ==> !IsJsWhitespace(s[r])
    decreases |s| - i
  {
    if i == |s| || !IsJsWhitespace(s[i]) then i else TrimStartIndex(s, i + 1)
  }

  /** The index just past the last character before j, and not before lo,
      that is not white space, or lo when there is none. */
  function TrimEndIndex(s: string, lo: nat, j: nat): (r: nat)
    requires lo <= j <= |s|
    ensures lo <= r <= j
    ensures forall k :: r <= k < j ==> IsJsWhitespace(s[k])
    ensures r > lo ==> !IsJsWhitespace(s[r - 1])
    decreases j
  {
    if j == lo || !IsJsWhitespace(s[j - 1]) then j else TrimEndIndex(s, lo, j - 1)
  }

  /** String.prototype.trim: the slice s[i..j] that is left once the white
      space at both ends is removed. It is empty exactly when s is all white
      space. */
  function Trim(s: string): (r: string)
    ensures exists i, j :: 0 <= i <= j <= |s| && r == s[i..j]
                           && (forall k :: 0 <= k < i ==> IsJsWhitespace(s[k]))
                           && (forall k :: j <= k < |s| ==> IsJsWhitespace(s[k]))
    ensures r != [] ==> !IsJsWhitespace(r[0]) && !IsJsWhitespace(r[|r| - 1])
    ensures r == [] <==> AllWhitespace(s)
  {
    var i := TrimStartIndex(s, 0);
    var j := TrimEndIndex(s, i, |s|);
    assert i < j ==> s[i..j][0] == s[i] && s[i..j][j - i - 1] == s[j - 1];
    assert i == j ==> AllWhitespace(s);
    s[i..j]
  }

  /** A string with no white space at either end is its own trim. */
  lemma TrimUnpadded(s: string)
    requires s == [] || (!IsJsWhitespace(s[0]) && !IsJsWhitespace(s[|s| - 1]))
    ensures Trim(s) == s
  {
    assert TrimStartIndex(s, 0) == 0;
    assert TrimEndIndex(s, 0, |s|) == |s|;
  }

  /** Trimming twice is trimming once. */
  lemma TrimIdempotent(s: string)
    ensures Trim(Trim(s)) == Trim(s)
  {
    TrimUnpadded(Trim(s));
  }

  /** The value of String.prototype.length: the number of UTF-16 code units,
      so a character outside the Basic Multilingual Plane counts twice. */
  function Utf16Length(s: string): (n: nat)
    ensures |s| <= n <= 2 * |s|
  {
    if s == [] then 0
    else (if s[0] as int > 0xFFFF then 2 else 1) + Utf16Length(s[1..])
  }
}

/**
 * The composer of chat-app/client/src/components/MessageInput.jsx: the
 * draft text, the blank-draft guard, media attachments and the typing
 * signals it sends up to the room.
 */
module MessageComposer {
  import opened Common

  /**
   * The characters `String.prototype.trim` removes: the ECMAScript
   * WhiteSpace and LineTerminator code points.
   */
  predicate IsJsWhitespace(c: char)
  {
    ('\U{0009}' <= c <= '\U{000D}') || c == ' ' || c == '\U{00A0}' || c == '\U{1680}'
    || ('\U{2000}' <= c <= '\U{200A}') || c == '\U{2028}' || c == '\U{2029}'
    || c == '\U{202F}' || c == '\U{205F}' || c == '\U{3000}' || c == '\U{FEFF}'
  }

  /** `s` without its leading whitespace. */
  function TrimStart(s: string): (t: string)
    ensures |t| <= |s| && t == s[|s| - |t|..]
    ensures forall i :: 0 <= i < |s| - |t| ==> IsJsWhitespace(s[i])
    ensures t != [] ==> !IsJsWhitespace(t[0])
  {
    if s == [] || !IsJsWhitespace(s[0]) then s else TrimStart(s[1..])
  }

  /** `s` without its trailing whitespace. */
  function TrimEnd(s: string): (t: string)
    ensures |t| <= |s| && t == s[..|t|]
    ensures forall i :: |t| <= i < |s| ==> IsJsWhitespace(s[i])
    ensures t != [] ==> !IsJsWhitespace(t[|t| - 1])
  {
    if s == [] || !IsJsWhitespace(s[|s| - 1]) then s else TrimEnd(s[..|s| - 1])
  }

  /** `s.trim()`. */
  function Trim(s: string): string
  {
    TrimEnd(TrimStart(s))
  }

  /** A draft trims to nothing exactly when every character of it is whitespace. */
  lemma TrimEmptyIff(s: string)
    ensures Trim(s) == [] <==> forall i :: 0 <= i < |s| ==> IsJsWhitespace(s[i])
  {
    var t := TrimStart(s);
    if Trim(s) != [] {
      assert t != [];
      assert t[0] == s[|s| - |t|];
    }
  }

  /** `s.startsWith(prefix)`. */
  predicate StartsWith(s: string, prefix: string)
  {
    |prefix| <= |s| && s[..|prefix|] == prefix
  }

  /** The message kind of an attached file: `'video'` for a `video/…` MIME type, `'image'` for any other. */
  function MediaKind(mime: string): (kind: string)
    ensures kind == "video" <==> StartsWith(mime, "video/")
    ensures kind == "image" <==> !StartsWith(mime, "video/")
  {
    if StartsWith(mime, "video/") then "video" else "image"
  }

  /** A picked file: its MIME type and the data URL the reader produced. */
  datatype File = File(mime: string, dataUrl: string)

  /** What the composer hands up: `onSendMessage(content, type)` or `onTyping(isTyping)`. */
  datatype Output = Send(content: string, kind: string) | TypingSignal(isTyping: bool)

  class MessageInput {
    /** The draft, `message`. */
    var draft: string
    /** The callbacks invoked, in order. */
    var output: seq<Output>

    constructor()
      ensures draft == "" && output == []
    {
      draft := "";
      output := [];
    }

    /**
     * `handleSubmit`: a draft that trims to nothing is neither sent nor
     * cleared; any other is sent as typed with kind `'text'`, then the
     * draft is cleared and typing is reported over.
     */
    method HandleSubmit()
      modifies this
      ensures Trim(old(draft)) == [] ==> draft == old(draft) && output == old(output)
      ensures Trim(old(draft)) != [] ==> draft == "" && output == old(output) + [Send(old(draft), "text"), TypingSignal(false)]
    {
      if Trim(draft) != [] {
        output := output + [Send(draft, "text")];
        draft := "";
        output := output + [TypingSignal(false)];
      }
    }

    /** `handleTyping`: each keystroke stores the input's value and reports typing. */
    method HandleTyping(value: string)
      modifies this
      ensures draft == value && output == old(output) + [TypingSignal(true)]
    {
      draft := value;
      output := output + [TypingSignal(true)];
    }

    /** The two-second timer set by a keystroke: it reports typing over. */
    method TypingTimerFires()
      modifies this
      ensures draft == old(draft) && output == old(output) + [TypingSignal(false)]
    {
      output := output + [TypingSignal(false)];
    }

    /** `onEmojiClick`: the emoji goes at the end of the draft. */
    method OnEmojiClick(emoji: string)
      modifies this
      ensures draft == old(draft) + emoji && output == old(output)
    {
      draft := draft + emoji;
    }

    /** `handleFileSelect`: with no file nothing is sent; otherwise its content with its kind. */
    method HandleFileSelect(file: Option<File>)
      modifies this
      ensures draft == old(draft)
      ensures output == old(output) + if file.Some? then [Send(file.value.dataUrl, MediaKind(file.value.mime))] else []
    {
      if file.Some? {
        output := output + [Send(file.value.dataUrl, MediaKind(file.value.mime))];
      }
    }
  }
}

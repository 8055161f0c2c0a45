/**
 * client/src/lib/actions.ts: the shared row-action handlers of the list pages. Toasts,
 * prompts and navigation are effects the handlers hand back; ids (`string | number`) are
 * taken in their rendered text form.
 */
module Actions {
  import opened Wrappers
  import opened Text

  /** What a handler does: navigate, show an informational toast, call a callback, and so on. */
  datatype Effect =
    | Navigate(path: string)
    | Info(message: string)
    | CallOnEdit(id: string)

  // ---------------------------------------------------------------- handleView

  predicate EndsWithS(t: string) { |t| > 0 && t[|t| - 1] == 's' }

  /** The route segment for a type: the type itself when it already ends in 's', else type + "s". */
  function Plural(t: string): (p: string)
    ensures EndsWithS(p)
    ensures EndsWithS(t) ==> p == t
    ensures !EndsWithS(t) ==> |p| == |t| + 1 && p[..|t|] == t
  {
    if EndsWithS(t) then t else t + "s"
  }

  /** Pluralising a plural changes nothing. */
  lemma PluralIdempotent(t: string)
    ensures Plural(Plural(t)) == Plural(t)
  {
  }

  /** Two types whose plurals coincide are equal or differ only by the trailing 's'. */
  lemma PluralMerges(t: string, u: string)
    requires Plural(t) == Plural(u)
    ensures t == u || t == u + "s" || u == t + "s"
  {
    if !EndsWithS(t) {
      assert t == Plural(t)[..|t|];
    }
    if !EndsWithS(u) {
      assert u == Plural(u)[..|u|];
    }
  }

  /** `handleView`: with a navigator, go to "/<plural>/<id>"; without one, an informational toast. */
  function HandleView(id: string, t: string, canNavigate: bool): (e: Effect)
    ensures canNavigate <==> e.Navigate?
    ensures e.Navigate? ==> e.path == "/" + Plural(t) + "/" + id
    ensures e.Info? ==> e.message == "Viewing " + t + " #" + id
  {
    if canNavigate then Navigate("/" + Plural(t) + "/" + id) else Info("Viewing " + t + " #" + id)
  }

  /** The path's first segment is the plural and its last is the id, whatever the id is. */
  lemma ViewPathParts(id: string, t: string)
    requires '/' !in id
    ensures var p := HandleView(id, t, true).path;
            p[0] == '/' && p[1..1 + |Plural(t)|] == Plural(t) && p[|p| - |id|..] == id
            && p[|p| - |id| - 1] == '/'
  {
  }

  // ---------------------------------------------------------------- handleEdit

  /** `handleEdit`: a supplied onEdit is called with exactly the id; otherwise a toast. */
  function HandleEdit(id: string, t: string, hasOnEdit: bool): (e: Effect)
    ensures hasOnEdit <==> e == CallOnEdit(id)
    ensures !hasOnEdit ==> e == Info("Opening editor for " + t + " #" + id)
  {
    if hasOnEdit then CallOnEdit(id) else Info("Opening editor for " + t + " #" + id)
  }

  // ---------------------------------------------------------------- handleEmail

  /** A character the pattern class `[^\s@]` accepts. */
  predicate PlainChar(c: char) { c != '@' && !IsSpace(c) }

  predicate Plain(x: string) { forall k :: 0 <= k < |x| ==> PlainChar(x[k]) }

  /**
   * The e-mail pattern `^[^\s@]+@[^\s@]+\.[^\s@]+$`: the '@' at i and the chosen '.' at j cut
   * the text into three non-empty runs of plain characters.
   */
  predicate EmailPattern(s: string) {
    exists i, j :: 0 < i && i + 1 < j && j + 1 < |s| && s[i] == '@' && s[j] == '.'
                   && Plain(s[..i]) && Plain(s[i + 1..j]) && Plain(s[j + 1..])
  }

  /**
   * The same language told another way: no whitespace, exactly one '@', not in first place,
   * and a '.' after it with something on both sides.
   */
  predicate EmailShape(s: string) {
    && (forall k :: 0 <= k < |s| ==> !IsSpace(s[k]))
    && exists i :: 0 < i < |s| && s[i] == '@'
                   && (forall k :: 0 <= k < |s| && k != i ==> s[k] != '@')
                   && exists j :: i + 1 < j < |s| - 1 && s[j] == '.'
  }

  lemma PatternHasShape(s: string)
    requires EmailPattern(s)
    ensures EmailShape(s)
  {
    var i, j :| 0 < i && i + 1 < j && j + 1 < |s| && s[i] == '@' && s[j] == '.'
                && Plain(s[..i]) && Plain(s[i + 1..j]) && Plain(s[j + 1..]);
    forall k | 0 <= k < |s|
      ensures !IsSpace(s[k]) && (k != i ==> s[k] != '@')
    {
      if k < i {
        assert s[k] == s[..i][k];
      } else if i < k < j {
        assert s[k] == s[i + 1..j][k - i - 1];
      } else if j < k {
        assert s[k] == s[j + 1..][k - j - 1];
      }
    }
  }

  lemma ShapeHasPattern(s: string)
    requires EmailShape(s)
    ensures EmailPattern(s)
  {
    var i :| 0 < i < |s| && s[i] == '@'
             && (forall k :: 0 <= k < |s| && k != i ==> s[k] != '@')
             && exists j :: i + 1 < j < |s| - 1 && s[j] == '.';
    var j :| i + 1 < j < |s| - 1 && s[j] == '.';
    PlainSlice(s, 0, i);
    PlainSlice(s, i + 1, j);
    PlainSlice(s, j + 1, |s|);
    assert s[0..i] == s[..i] && s[j + 1..|s|] == s[j + 1..];
  }

  lemma PlainSlice(s: string, lo: int, hi: int)
    requires 0 <= lo <= hi <= |s| && forall k :: lo <= k < hi ==> PlainChar(s[k])
    ensures Plain(s[lo..hi])
  {
  }

  /** Both descriptions accept exactly the same addresses. */
  lemma EmailPatternIffShape(s: string)
    ensures EmailPattern(s) <==> EmailShape(s)
  {
    if EmailPattern(s) { PatternHasShape(s); }
    if EmailShape(s) { ShapeHasPattern(s); }
  }

  lemma EmailExample()
    ensures EmailPattern("a@b.c")
  {
    var s := "a@b.c";
    assert s[..1] == "a" && s[2..3] == "b" && s[4..] == "c";
    assert 0 < 1 && 1 + 1 < 3 && 3 + 1 < |s| && s[1] == '@' && s[3] == '.';
  }

  /** An address with two '@' is refused. */
  lemma TwoAtsRejected(s: string, p: int, q: int)
    requires 0 <= p < q < |s| && s[p] == '@' && s[q] == '@'
    ensures !EmailPattern(s)
  {
    assert !EmailShape(s) by {
      forall i | 0 <= i < |s| && s[i] == '@'
        ensures exists k :: 0 <= k < |s| && k != i && s[k] == '@'
      {
        if i == p { assert s[q] == '@'; } else { assert s[p] == '@'; }
      }
    }
    EmailPatternIffShape(s);
  }

  /** An address without a '.' is refused. */
  lemma NoDotRejected(s: string)
    requires forall k :: 0 <= k < |s| ==> s[k] != '.'
    ensures !EmailPattern(s)
  {
    EmailPatternIffShape(s);
  }

  /** An address that starts with '@' (an empty local part) is refused. */
  lemma LeadingAtRejected(s: string)
    requires |s| > 0 && s[0] == '@'
    ensures !EmailPattern(s)
  {
    EmailPatternIffShape(s);
  }

  datatype EmailOutcome = Rejected(message: string) | Sending(email: string)

  /** JavaScript falsiness of an optional string: undefined, null or "". */
  predicate Missing(e: Option<string>) { e.None? || e.value == "" }

  /**
   * `handleEmail`: a missing recipient is asked for (the prompt's answer is an input, None for
   * a cancelled prompt); an empty answer stops with "Email address is required"; an address
   * that fails the pattern stops with "Please enter a valid email address"; otherwise the
   * send starts.
   */
  method HandleEmail(recipient: Option<string>, promptAnswer: Option<string>) returns (r: EmailOutcome)
    ensures Missing(recipient) && Missing(promptAnswer) <==> r == Rejected("Email address is required")
    ensures var e := if Missing(recipient) then promptAnswer else recipient;
            !Missing(e) ==> (r == Sending(e.value) <==> EmailPattern(e.value))
                            && (r.Rejected? ==> r.message == "Please enter a valid email address")
    ensures r.Sending? ==> EmailPattern(r.email)
  {
    var email := recipient;
    if Missing(email) {
      if Missing(promptAnswer) {
        return Rejected("Email address is required");
      }
      email := promptAnswer;
    }
    var address := email.value;
    if !EmailPattern(address) {
      return Rejected("Please enter a valid email address");
    }
    r := Sending(address);
  }

  // ---------------------------------------------------------------- generateDocumentContent

  datatype DocumentKind = InvoiceDoc | ReceiptDoc | QuotationDoc | ProposalDoc | GenericDoc

  /** The template `generateDocumentContent` picks: by the lower-cased type. */
  function ContentKind(t: string): (k: DocumentKind)
    ensures k == QuotationDoc <==> Lower(t) == "estimate" || Lower(t) == "quotation"
    ensures k == GenericDoc <==> Lower(t) !in {"invoice", "receipt", "estimate", "quotation", "proposal"}
  {
    match Lower(t)
    case "invoice" => InvoiceDoc
    case "receipt" => ReceiptDoc
    case "estimate" => QuotationDoc
    case "quotation" => QuotationDoc
    case "proposal" => ProposalDoc
    case _ => GenericDoc
  }

  /**
   * The first line of the generated document. Every template starts with a line break and the
   * result is trimmed, so a type made only of whitespace leaves the heading starting at `#`.
   */
  function DocumentHeading(t: string, id: string): (h: string)
    ensures ContentKind(t) == GenericDoc && TrimStart(Upper(t)) != [] ==> h == TrimStart(Upper(t)) + " #" + id
    ensures ContentKind(t) == GenericDoc && TrimStart(Upper(t)) == [] ==> h == "#" + id
    ensures ContentKind(t) == QuotationDoc ==> h == "QUOTATION #" + id
    ensures ContentKind(t) == InvoiceDoc ==> h == "INVOICE #" + id
    ensures ContentKind(t) == ReceiptDoc ==> h == "PAYMENT RECEIPT #" + id
    ensures ContentKind(t) == ProposalDoc ==> h == "BUSINESS PROPOSAL #" + id
  {
    match ContentKind(t)
    case InvoiceDoc => "INVOICE #" + id
    case ReceiptDoc => "PAYMENT RECEIPT #" + id
    case QuotationDoc => "QUOTATION #" + id
    case ProposalDoc => "BUSINESS PROPOSAL #" + id
    case GenericDoc =>
      TrimStartConcat(Upper(t), " #" + id);
      assert (" #" + id)[0] == ' ' && (" #" + id)[1..] == "#" + id && ("#" + id)[0] == '#';
      assert Upper(t) + " #" + id == Upper(t) + (" #" + id);
      TrimStart(Upper(t) + " #" + id)
  }

  /** A type made only of whitespace falls to the generic template, whose heading is then `#` and the id. */
  lemma BlankTypeHeading(t: string, id: string)
    requires forall k :: 0 <= k < |t| ==> IsSpace(t[k])
    ensures ContentKind(t) == GenericDoc
    ensures DocumentHeading(t, id) == "#" + id
  {
    if t != [] {
      assert Lower(t)[0] == t[0] && IsSpace(t[0]);
    }
    assert forall k :: 0 <= k < |Upper(t)| ==> Upper(t)[k] == t[k];
    TrimStartBlank(Upper(t));
  }

  lemma UpperOfLowerChar(c: char)
    ensures UpperChar(LowerChar(c)) == UpperChar(c)
  {
  }

  /** Types that agree ignoring case produce the same document heading. */
  lemma HeadingIgnoresCase(t: string, u: string, id: string)
    requires Lower(t) == Lower(u)
    ensures ContentKind(t) == ContentKind(u)
    ensures DocumentHeading(t, id) == DocumentHeading(u, id)
  {
    assert Upper(t) == Upper(u) by {
      forall k | 0 <= k < |t|
        ensures Upper(t)[k] == Upper(u)[k]
      {
        assert Lower(t)[k] == Lower(u)[k];
        UpperOfLowerChar(t[k]);
        UpperOfLowerChar(u[k]);
      }
    }
  }

  /** "estimate" and "quotation", in any case, share one template. */
  lemma EstimateIsQuotation(id: string)
    ensures DocumentHeading("Estimate", id) == DocumentHeading("QUOTATION", id) == "QUOTATION #" + id
  {
    assert Lower("Estimate") == "estimate";
    assert Lower("QUOTATION") == "quotation";
  }

  // ---------------------------------------------------------------- generateEmailTemplate

  datatype EmailTemplate = KnownTemplate(kind: DocumentKind) | FallbackTemplate(html: string)

  /**
   * `generateEmailTemplate`: the templates are keyed by the exact type (no case folding and
   * no "quotation" key); any other type gets a one-paragraph fallback.
   */
  function EmailTemplateFor(t: string): (r: EmailTemplate)
    ensures r.FallbackTemplate? <==> t !in {"invoice", "receipt", "estimate", "proposal"}
    ensures r.FallbackTemplate? ==> r.html == "<p>" + t + " document attached.</p>"
    ensures r.KnownTemplate? ==> r.kind == ContentKind(t) && r.kind != GenericDoc
  {
    match t
    case "invoice" => assert Lower(t) == "invoice"; KnownTemplate(InvoiceDoc)
    case "receipt" => assert Lower(t) == "receipt"; KnownTemplate(ReceiptDoc)
    case "estimate" => assert Lower(t) == "estimate"; KnownTemplate(QuotationDoc)
    case "proposal" => assert Lower(t) == "proposal"; KnownTemplate(ProposalDoc)
    case _ => FallbackTemplate("<p>" + t + " document attached.</p>")
  }

  /** Unlike the document content, the e-mail template is case-sensitive and has no "quotation" key. */
  lemma EmailTemplateIsCaseSensitive()
    ensures ContentKind("Invoice") == InvoiceDoc && EmailTemplateFor("Invoice").FallbackTemplate?
    ensures ContentKind("quotation") == QuotationDoc && EmailTemplateFor("quotation").FallbackTemplate?
  {
    assert Lower("Invoice") == "invoice";
    assert Lower("quotation") == "quotation";
  }
}

/** Input rules for creating a producer. The document (a Brazilian CPF or
    CNPJ) is normalised by deleting every character that is not an ASCII digit,
    and the normalised value must then consist of exactly 11 or exactly 14
    digits; the name must be a non-empty string. */
module ProducerDto {
  import opened Errors
  import opened Records

  const DocumentMessage := "'document' must be a cpf or a cpnj"
  const NameMessage := "name should not be empty"

  /** The input after transformation, as it reaches the service. */
  datatype CreateProducerDto = CreateProducerDto(name: string, document: string)

  /** The partial input of an update; either field may be left out. */
  datatype UpdateProducerDto = UpdateProducerDto(name: Option<string>, document: Option<string>)

  /** The class `\d` of a JavaScript regular expression: the ASCII digits only. */
  predicate IsDigit(c: char) {
    '0' <= c <= '9'
  }

  predicate AllDigits(s: string) {
    forall i :: 0 <= i < |s| ==> IsDigit(s[i])
  }

  /** Deletes every non-digit, keeping the digits in their order. */
  function Normalize(s: string): (r: string)
    ensures AllDigits(r)
    ensures |r| <= |s|
  {
    if s == [] then []
    else (if IsDigit(s[0]) then [s[0]] else []) + Normalize(s[1..])
  }

  /** Normalising works piecewise, so the digits stay in their original order. */
  lemma {:induction false} NormalizeAppend(a: string, b: string)
    ensures Normalize(a + b) == Normalize(a) + Normalize(b)
  {
    if a == [] {
      assert a + b == b;
    } else {
      assert (a + b)[0] == a[0] && (a + b)[1..] == a[1..] + b;
      NormalizeAppend(a[1..], b);
    }
  }

  /** Every digit is kept as often as it occurs, and nothing else is kept. */
  lemma {:induction false} NormalizeKeepsDigits(s: string)
    ensures forall c :: IsDigit(c) ==> multiset(Normalize(s))[c] == multiset(s)[c]
    ensures forall c :: !IsDigit(c) ==> multiset(Normalize(s))[c] == 0
  {
    if s != [] {
      NormalizeKeepsDigits(s[1..]);
      assert s == [s[0]] + s[1..];
    }
  }

  /** A digits-only document is left as it is. */
  lemma {:induction false} NormalizeDigitsOnly(s: string)
    requires AllDigits(s)
    ensures Normalize(s) == s
  {
    if s != [] {
      NormalizeDigitsOnly(s[1..]);
    }
  }

  /** Normalising twice is normalising once. */
  lemma NormalizeIdempotent(s: string)
    ensures Normalize(Normalize(s)) == Normalize(s)
  {
    NormalizeDigitsOnly(Normalize(s));
  }

  /** A document without digits normalises to the empty string. */
  lemma {:induction false} NormalizeNoDigits(s: string)
    requires forall i :: 0 <= i < |s| ==> !IsDigit(s[i])
    ensures Normalize(s) == ""
  {
    if s != [] {
      NormalizeNoDigits(s[1..]);
    }
  }

  /** The pattern a normalised document must match: 11 or 14 digits, nothing else. */
  predicate IsCpfOrCnpj(s: string) {
    (|s| == 11 || |s| == 14) && AllDigits(s)
  }

  /** The validation pipeline: transform the document, then check both fields. */
  function Validate(name: string, document: string): (r: Result<CreateProducerDto>)
    ensures r.Success? <==> name != "" && (|Normalize(document)| == 11 || |Normalize(document)| == 14)
    ensures r.Success? ==> r.value == CreateProducerDto(name, Normalize(document))
    ensures r.Success? ==> IsCpfOrCnpj(r.value.document)
    ensures r.Failure? ==> r.error.InvalidInput?
  {
    var doc := Normalize(document);
    if name == "" then Failure(InvalidInput(NameMessage))
    else if !IsCpfOrCnpj(doc) then Failure(InvalidInput(DocumentMessage))
    else Success(CreateProducerDto(name, doc))
  }

  /** A document made of 11 or 14 digits is accepted and stored as sent. */
  lemma DigitsOnlyAccepted(name: string, document: string)
    requires name != "" && IsCpfOrCnpj(document)
    ensures Validate(name, document) == Success(CreateProducerDto(name, document))
  {
    NormalizeDigitsOnly(document);
  }

  /** Acceptance depends only on the number of digits: inserting non-digits
      anywhere in a document does not change the outcome. */
  lemma {:induction false} SeparatorsIgnored(name: string, a: string, sep: string, b: string)
    requires forall i :: 0 <= i < |sep| ==> !IsDigit(sep[i])
    ensures Validate(name, a + sep + b) == Validate(name, a + b)
  {
    NormalizeAppend(a + sep, b);
    NormalizeAppend(a, sep);
    NormalizeAppend(a, b);
    NormalizeNoDigits(sep);
    assert Normalize(a) + "" == Normalize(a);
  }

  /** '12345678910' is accepted and stored as sent. */
  lemma ElevenDigitsAccepted()
    ensures Validate("John Doe", "12345678910") == Success(CreateProducerDto("John Doe", "12345678910"))
  {
    var doc := "12345678910";
    assert AllDigits(doc);
    DigitsOnlyAccepted("John Doe", doc);
  }

  /** 'invalid-document' normalises to the empty string and is rejected. */
  lemma InvalidDocumentRejected()
    ensures Normalize("invalid-document") == ""
    ensures Validate("John Doe", "invalid-document") == Failure(InvalidInput(DocumentMessage))
  {
    NormalizeNoDigits("invalid-document");
  }
}

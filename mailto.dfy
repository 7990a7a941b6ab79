/**
  The compose-draft link that a successful submission navigates to: a
  `mailto:` URI (section 2 of RFC 6068) addressed to a fixed recipient, with a
  fixed subject and a body template that ends with the typed address.

  The address is escaped by the browser's `encodeURIComponent`, which is not
  part of this model: it is passed in as the function `encode`.
*/
module Mailto {

  /** Everything of the link that precedes the encoded address: the scheme,
      the fixed recipient hello@ensenada101.fishtacos.com, the header field
      `subject` ("Notifícame", percent-encoded as UTF-8) and the header field
      `body`, whose value starts "Hola! Agrégame a la lista. Mi email: " and is
      completed by the encoded address. */
  const Prefix: string := "mailto:hello@ensenada101.fishtacos.com?subject=Notif%C3%ADcame&body=Hola!%20Agr%C3%A9game%20a%20la%20lista.%20Mi%20email%3A%20"

  /** The link for `email`: the fixed prefix, then the encoding of the address. */
  function MailtoUrl(encode: string -> string, email: string): (url: string)
    ensures Prefix <= url
    ensures url[|Prefix|..] == encode(email)
  {
    Prefix + encode(email)
  }

  /** Two links agree exactly when the encodings of their addresses agree, so
      the link determines the encoded address it carries. */
  lemma MailtoUrlInjective(encode: string -> string, e1: string, e2: string)
    ensures MailtoUrl(encode, e1) == MailtoUrl(encode, e2) <==> encode(e1) == encode(e2)
  {
  }

  /** The typed address can be read back from the draft: dropping the fixed
      prefix and applying an inverse of the escaping (the browser's
      `decodeURIComponent`, passed in as `decode`) gives the address. */
  lemma AddressRecoverable(encode: string -> string, decode: string -> string, email: string)
    requires forall x :: decode(encode(x)) == x
    ensures decode(MailtoUrl(encode, email)[|Prefix|..]) == email
  {
  }
}

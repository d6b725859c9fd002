/** internal/database/identifier.go: the identifiers that may be quoted into SQL. */
module Identifier {
  import opened Text

  datatype IdentifierError = InvalidIdentifier

  predicate IsIdentifierStart(c: char) {
    c == '_' || 'A' <= c <= 'Z' || 'a' <= c <= 'z'
  }

  predicate IsIdentifierPart(c: char) {
    IsIdentifierStart(c) || '0' <= c <= '9'
  }

  predicate IsIdentifier(s: string) {
    s != "" && IsIdentifierStart(s[0]) && forall c <- s :: IsIdentifierPart(c)
  }

  method ValidateIdentifier(identifier: string) returns (ok: bool)
    ensures ok == IsIdentifier(identifier)
  {
    if identifier == "" {
      return false;
    }
    for i := 0 to |identifier|
      invariant forall k :: 0 <= k < i ==> IsIdentifierPart(identifier[k])
      invariant i > 0 ==> IsIdentifierStart(identifier[0])
    {
      var c := identifier[i];
      if c > '\U{7F}' || (i == 0 && !IsIdentifierStart(c)) || (i > 0 && !IsIdentifierPart(c)) {
        assert c in identifier;
        return false;
      }
    }
    return true;
  }

  function QuoteIdentifier(identifier: string): Result<string, IdentifierError> {
    if IsIdentifier(identifier) then Success("`" + identifier + "`") else Failure(InvalidIdentifier)
  }
}

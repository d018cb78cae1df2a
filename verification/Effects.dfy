/** What a handler does to the two tables: a plan of at most four writes or bulk writes, run whole
    or, when the attempt crashes, in part. */
module Effects {
  import opened Wrappers
  import opened Domain
  import opened Tables

  datatype WriterError =
    | MissingKey
    | MissingDescriptor
    | MissingActivationStamp
    | MissingUpgradeStamp
    | NoLivePurposeVersion

  datatype Effect =
    | Nothing
    | PutPurpose(purpose: PurposeId, purposeRow: PurposeRow)
    | DropPurpose(purpose: PurposeId)
    | PutAgreement(agreement: AgreementKey, agreementRow: AgreementRow)
    | PutDescriptor(descriptor: DescriptorKey, catalogRow: CatalogRow)
    | DropDescriptor(descriptor: DescriptorKey)
    | PutClient(client: ClientId, clientRow: ClientRow)
    | DropClient(client: ClientId)
    | PutTokens(entries: map<TokenKey, TokenEntry>)
    | DropTokens(keys: set<TokenKey>)
    | PatchTokens(patch: Patch)

  datatype Plan = Plan(first: Effect, second: Effect, third: Effect, fourth: Effect)

  const SKIP := Plan(Nothing, Nothing, Nothing, Nothing)

  function OnRows(s: Rows, f: Effect): Rows {
    match f
    case PutPurpose(p, row) => s.(purposes := s.purposes[p := row])
    case DropPurpose(p) => s.(purposes := s.purposes - {p})
    case PutAgreement(k, row) => s.(agreements := s.agreements[k := row])
    case PutDescriptor(d, row) => s.(descriptors := s.descriptors[d := row])
    case DropDescriptor(d) => s.(descriptors := s.descriptors - {d})
    case PutClient(c, row) => s.(clients := s.clients[c := row])
    case DropClient(c) => s.(clients := s.clients - {c})
    case _ => s
  }

  function OnTokens(t: Tokens, f: Effect): Tokens {
    match f
    case PutTokens(entries) => t + entries
    case DropTokens(keys) => t - keys
    case PatchTokens(patch) => PatchAll(patch, t)
    case _ => t
  }

  function Apply(s: Store, f: Effect): Store {
    Store(OnRows(s.rows, f), OnTokens(s.tokens, f))
  }

  function Run(s: Store, p: Plan): Store {
    Apply(Apply(Apply(Apply(s, p.first), p.second), p.third), p.fourth)
  }

  /** How far an effect got before the attempt crashed: a row write is done or not, a bulk write or
      a paged propagation reached the entries in `keys`. */
  datatype Extent = Extent(row: bool, keys: set<TokenKey>)

  function OnTokensPart(t: Tokens, f: Effect, keys: set<TokenKey>): Tokens {
    match f
    case PutTokens(entries) => t + map pk | pk in entries && pk in keys :: entries[pk]
    case DropTokens(dropped) => t - dropped * keys
    case PatchTokens(patch) => PatchSome(patch, t, keys)
    case _ => t
  }

  function ApplyPart(s: Store, f: Effect, x: Extent): Store {
    Store(if x.row then OnRows(s.rows, f) else s.rows, OnTokensPart(s.tokens, f, x.keys))
  }

  /** A crashed attempt.  Any part of any effect may have happened, which covers every prefix of the
      writes in every page order, and every interleaving of the source's `Promise.all`. */
  datatype Cut = Cut(first: Extent, second: Extent, third: Extent, fourth: Extent)

  function RunPart(s: Store, p: Plan, cut: Cut): Store {
    ApplyPart(ApplyPart(ApplyPart(ApplyPart(s, p.first, cut.first), p.second, cut.second), p.third, cut.third),
              p.fourth, cut.fourth)
  }
}

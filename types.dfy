/**
 * The records of types/index.ts. Identifiers and timestamps are opaque
 * strings; JavaScript `null` and an absent property are `None`.
 */
module Types {
  import opened Wrappers
  import opened Numbers

  /** A pet as read from the pets table. */
  datatype Pet = Pet(
    id: string,
    name: string,
    species: string,
    breed: Option<string>,
    age: Option<Num>,
    size: Option<string>,
    gender: Option<string>,
    description: Option<string>,
    healthStatus: Option<string>,
    isAdopted: bool,
    reportedBy: Option<string>,
    imageUrl: Option<string>,
    createdAt: string,
    updatedAt: string)

  datatype ApplicationStatus = Pending | Approved | Rejected

  /** An adoption application as stored (the joined `pet` is not modelled). */
  datatype AdoptionApplication = AdoptionApplication(
    id: string,
    petId: string,
    userId: string,
    status: ApplicationStatus,
    reason: Option<string>,
    createdAt: string,
    updatedAt: string)

  /** A question/answer pair the chat widget answers from. */
  datatype ChatbotFaq = ChatbotFaq(
    id: string,
    question: string,
    answer: string,
    category: Option<string>,
    createdAt: string)

  /** The filters of the pet listing; every field may be absent. */
  datatype PetFilters = PetFilters(
    species: Option<string>,
    breed: Option<string>,
    minAge: Option<Num>,
    maxAge: Option<Num>,
    size: Option<string>,
    gender: Option<string>,
    isAdopted: Option<bool>)

  /** The empty filter record `{}`. */
  const NoFilters := PetFilters(None, None, None, None, None, None, None)
}

# EyeDB in Dafny

A model of five parts of the EyeDB object database, and proofs of what they promise.

* **Relationships.** When an object is stored or removed, EyeDB repairs the other end of each of its
  relationships, whether 1:1, 1:N, N:1 or N:N; a write of a collection repairs the other end of each element
  that came or went. `Store` holds the slots, the collections and the IDR being stored; `InverseSpec` says
  in closed form what each routine does; `InverseEngine` has the routines themselves, loop by loop, proved
  to do that; `InverseReads` says what they leave, slot by slot, from any database whatever; `InverseLaws`,
  `InverseLawsNN` and `InverseLawsElem` say exactly when one step keeps the relationship; `InverseDriver`,
  `InverseFrame`, `InverseRuns` and `ObjectStore` put the steps together for whole objects, whole schemas
  and whole runs, `ObjectEffects` says what a whole object leaves behind, and `InverseSuccess` when all this
  succeeds; `SameClass` and `SameClassMany` treat classes that hold both ends, among any other attributes
  (`ClassFrame`); `SchemaCheck` is the check made on a schema beforehand; `Witnesses` has one small database
  for each way to break a relationship.
* **Arguments on the wire.** `ArgumentFormat` says what the bytes of an argument are and what a reader makes
  of bytes; `ArgumentLaws` proves that the two undo each other, and `ArgumentLayout` says where each byte
  lies; `ArgumentCode`, `ArgumentReader`, `ArgumentData` and `SignatureCode` are the size pre-pass, the
  writer and the reader over one buffer.
* **Recursive store and cycle search.** `GraphStore`, `GraphWalk`, `GraphLaws` and `GraphFlags` are
  the recursive store over an object graph that may be shared and cyclic; `CycleWalk` is the search for a cycle
  through an object about to be released.
* **Index building.** `IndexBuild` walks every instance along an attribute path and refills one
  buffer for each entry; `IndexLaws` relates the index to the instances.
* **Clocks.** `Clock` and `ClockConverter` print and parse times of day and time zones.

`dafny verify dfyconfig.toml` checks everything.

Three files cannot be cited line by line in the table below. The order of the inverse routines and of an
object's own write is the back end's, in `src/eyedb/kernel.cc`: `IDB_agregatCreate` writes the object first,
`IDB_agregatWrite` and `IDB_agregatDelete` last, and `IDB_collectionWrite` makes all changes to the
collection before it reports any. How two attributes compare, and how the cycle search goes through the
slots of one attribute, is in `src/eyedb/Attribute.cc`. That a class lists what it inherits first, and that
an attribute is looked up by name from the last one back, is in `src/eyedb/Class.cc` (the Java client has
the same loop).

## Where the code falls short of what it is for

Each of these is kept in the model as the code has it, with the exact condition proved.

* A self-inverse 1:1 attribute loses symmetry when an object related to itself is re-pointed
  (`Step11Exactly`, `SelfSpouse`).
* Assigning a collection to the N side of N:1 takes an owner's whole collection away as soon as one
  member is taken over; the owner's other members keep pointing to it (`StepN1Exactly`, `StolenCar`).
* Taking an element out of an N:N collection takes it out of all its other owners' collections too, but
  leaves those owners in its inverse collection (`WrittenNExactly`, `SharedCourse`).
* In a class that holds both ends of a 1:1 relationship, an object related to itself keeps its old
  reference when it is given another one for the end declared second: the routine of the end declared
  first writes the old reference back into the IDR, and the update is lost (`OneEnd11`, `LostUpdate`).
  Given a new partner for the first end and itself for the second, it ends up related to itself while
  the partner points to it (`BothEnds11`, `TornPair`).
* In a class that declares the single reference of a 1:N relationship before the collection, an
  object that becomes its own parent detaches the siblings it leaves behind (`StoredCollection`,
  `OwnFather`); with the collection declared first this does not happen. When an update gives both a
  new parent and a new collection, either order has further cases in which the ends come apart
  (`ReferenceFirst`, `CollectionFirst`, `OwnChild`).
* The schema check compares attributes without their owning class, so it lets through a schema in
  which "inverse of" is no involution: the directive of an inverse may give a class that does not have
  the attribute one came from (`InvolutionExactly`, `BoatsBelongToNobody`).
* Remove does not read the stored reference: it repairs what the IDR it is given says (`Keeps11`,
  `Keeps1N`, `KeepsN1` and `KeepsNN` ask for the stored one; `StaleRemove`).  A stale reference to an object that
  is its own partner takes that relation away too (`StoredExactly`).
* With the map of stored objects in use, an object that the walk comes to again after it was stored
  keeps its `Realizing` flag, and no later store, from wherever, writes it again (`FlagsClearExactly`,
  `UpdatesLost`).
* The buffer allocated for a signature has no room for the class names of object types
  (`AllocationExactly`), and a class name read back has no terminator, so that it is right exactly when
  what lies behind it in memory starts with a NUL (`NameExactly`).
* The header of `ClockConverter` speaks of hours 0 to 23; printing and parsing undo each other up to
  a hundred hours, and not beyond (`UsecTripExactly`).

## Model

| member | source | states |
|---|---|---|
| Store.Database.WriteOid | src/eyedb/Attribute_inv.cc:1336-1371 | an oid written to a slot of the object being stored also goes into its IDR, any other leaves the IDR alone |
| Store.Database.GetCollection | src/eyedb/Attribute_inv.cc:1169-1202 | a removed collection comes back as absent, an oid that names no collection as an error |
| Store.Database.CreateCollection | src/eyedb/Attribute_inv.cc:1204-1303 | a collection made on demand is new, empty and live |
| Store.Database.GetElements | src/eyedb/Attribute_inv.cc:376-398 | a snapshot with each element once, in no promised order |
| Store.Database.Insert | src/eyedb/CollSet.cc:112-180 | inserting without duplicates adds the element to that collection only |
| Store.Database.Suppress | src/eyedb/Collection.cc:1053-1125 | suppressing takes the element out of that collection only |
| InverseEngine.Update11 | src/eyedb/Attribute_inv.cc:667-704 | the update branch ends in the closed form: old target let go only if it still points back, current partner of the new target displaced |
| InverseEngine.Inverse11 | src/eyedb/Attribute_inv.cc:634-715 | the 1:1 routine has exactly the effect `Effect11`, in all three operations, aliasing included |
| InverseEngine.LeaveHome | src/eyedb/Attribute_inv.cc:739-760 | the object leaves the collection of its old parent; fails exactly when that oid is no collection |
| InverseEngine.JoinHome | src/eyedb/Attribute_inv.cc:766-788 | the object joins the collection of its new parent, which is made and recorded on demand |
| InverseEngine.Inverse1N | src/eyedb/Attribute_inv.cc:725-826 | the 1:N routine has exactly the effect `Effect1N`, and succeeds exactly when the collections it needs can be read |
| InverseEngine.NullMembers | src/eyedb/Attribute_inv.cc:848-862 | every member of the old collection is let go, whatever the order of the snapshot |
| InverseEngine.TakeMembers | src/eyedb/Attribute_inv.cc:866-890 | every member of the new collection points to the object; each previous owner loses its collection |
| InverseEngine.InverseN1 | src/eyedb/Attribute_inv.cc:831-915 | the N:1 routine has exactly the effect `EffectN1`, with success characterised |
| InverseEngine.WithdrawAll | src/eyedb/Attribute_inv.cc:950-976 | the loop takes the object out of the inverse collection of every old member and empties the old collection |
| InverseEngine.JoinAll | src/eyedb/Attribute_inv.cc:990-1029 | the loop puts the object into every new member's inverse collection, made for exactly those members that have none |
| InverseEngine.DissolveNN | src/eyedb/Attribute_inv.cc:1035-1072 | removing takes the object out of its members' collections and those members out of its own |
| InverseEngine.InverseNN | src/eyedb/Attribute_inv.cc:926-1075 | the N:N routine has exactly the effect `EffectNN`, with success characterised |
| InverseEngine.EmptyOut | src/eyedb/Attribute_inv.cc:566-586 | the collection robbed of an element is emptied and all its members are let go |
| InverseEngine.CollPerformN1 | src/eyedb/Attribute_inv.cc:539-605 | one element inserted or taken out, inverse a single reference: exactly `EffectElem1` |
| InverseEngine.StripOthers | src/eyedb/Attribute_inv.cc:497-521 | the element is taken out of the collection of every other owner its inverse collection names |
| InverseEngine.CollPerformNN | src/eyedb/Attribute_inv.cc:342-528 | one element inserted or taken out, inverse a collection: exactly `EffectElemN` |
| InverseEngine.CollectionWrite | src/eyedb/Attribute_inv.cc:313-329 | first all changes to the collection, then the inverse of each in order; for distinct changes where the relationship is in order, the collection holds afterwards exactly what was inserted and, of what it held, what was not taken out, the inverse end of every change is set, and nothing else is but what a robbed parent or another owner loses |
| InverseReads.Reads11 | src/eyedb/Attribute_inv.cc:634-715 | from any database whatever, which slots a 1:1 routine leaves changed and to what |
| InverseReads.Reads1N | src/eyedb/Attribute_inv.cc:725-826 | from any database, what each collection holds after a 1:N routine |
| InverseReads.Made1N | src/eyedb/Attribute_inv.cc:766-788 | a collection is made exactly where the new parent has none alive, and only then is a slot written |
| InverseReads.ReadsN1 | src/eyedb/Attribute_inv.cc:831-915 | from any database, where members point and who has lost its collection after an N:1 routine |
| InverseReads.ReadsNN | src/eyedb/Attribute_inv.cc:926-1030 | from any database, what each earlier collection holds after an N:N create or update |
| InverseReads.MadeNN | src/eyedb/Attribute_inv.cc:990-1029 | each new member without a live inverse collection gets one of its own, and no other slot is written |
| InverseReads.RemovesNN | src/eyedb/Attribute_inv.cc:1032-1075 | from any database, what each collection holds after an N:N removal |
| InverseReads.ReadsElem1 | src/eyedb/Attribute_inv.cc:539-605 | from any database, what one element inserted or taken out leaves where the inverse is a single reference |
| InverseReads.ReadsElemN | src/eyedb/Attribute_inv.cc:480-527 | from any database, which collections an element taken out leaves, and whose |
| InverseReads.JoinsElemN | src/eyedb/Attribute_inv.cc:360-478 | an element inserted has the owner put into its inverse collection, live or made for it |
| InverseLaws.Step11Exactly | src/eyedb/Attribute_inv.cc:634-715 | a 1:1 step keeps a[x]=y iff b[y]=x exactly when the call meets `Keeps11`; any update does unless a self-inverse object related to itself moves |
| InverseLaws.Step1NExactly | src/eyedb/Attribute_inv.cc:725-826 | a 1:N step keeps "parent of c is p iff c is in p's collection" exactly when the call meets `Keeps1N`; an update always does |
| InverseLaws.StepN1Exactly | src/eyedb/Attribute_inv.cc:831-915 | assigning a collection keeps the relationship exactly when each previous owner loses all of its members to it |
| InverseLaws.StepN1Half | src/eyedb/Attribute_inv.cc:841-891 | whatever is assigned, a member of any object's collection points to that object |
| InverseLaws.StepN1Apart | src/eyedb/Attribute_inv.cc:831-891 | after an N:1 assignment, a collection taken over from another object has one holder |
| InverseLawsNN.ElemsNow | src/eyedb/Attribute_inv.cc:936-1030 | the contents, after an N:N step, of every collection that existed before |
| InverseLawsNN.InverseMembers | src/eyedb/Attribute_inv.cc:936-1030 | who each member's inverse collection names afterwards, members of both the old and the new collection included |
| InverseLawsNN.StepNNExactly | src/eyedb/Attribute_inv.cc:936-1030 | an N:N create or update keeps "m in x's iff x in m's" and single ownership exactly when the collection given is held by nobody else |
| InverseLawsNN.RemoveNNExactly | src/eyedb/Attribute_inv.cc:1032-1075 | an N:N remove keeps symmetry exactly when it is given the object's own collection |
| InverseLawsNN.StepNNApart | src/eyedb/Attribute_inv.cc:990-1029 | collections made on demand are held once each |
| InverseLawsElem.Written1Keeps | src/eyedb/Attribute_inv.cc:539-605 | any list of insertions and removals keeps a 1:N relationship |
| InverseLawsElem.SiblingsLetGo | src/eyedb/Attribute_inv.cc:559-586 | an insertion that takes a child from another parent empties that parent's collection and nulls all its children |
| InverseLawsElem.WrittenNKeeps | src/eyedb/Attribute_inv.cc:342-528 | a list of changes whose removed elements have no other owner keeps an N:N relationship, types and single ownership |
| InverseLawsElem.WrittenNExactly | src/eyedb/Attribute_inv.cc:342-528 | any list of distinct changes keeps an N:N relationship exactly when no element taken out has another owner |
| InverseLawsElem.TakenOut | src/eyedb/Attribute_inv.cc:480-527 | after one removal a member's owner is still named by it, and the pairs that disagree are those of the element and its other owners, no others |
| InverseLawsElem.TakenOutExactly | src/eyedb/Attribute_inv.cc:480-527 | one removal keeps N:N symmetry exactly when the element had no other owner |
| InverseLawsElem.WrittenPoints | src/eyedb/Attribute_inv.cc:539-605 | after any distinct changes of a parent's collection, whom each child points to: the parent if inserted, nobody if taken out or if a sibling was inserted from the same other parent, else as before |
| InverseLawsElem.WrittenHolds | src/eyedb/Attribute_inv.cc:313-329 | and what each parent's collection holds |
| InverseLawsElem.WrittenNames | src/eyedb/Attribute_inv.cc:342-528 | the same where the inverse is a collection: who each element names, and what this and every other collection hold |
| InverseLawsElem.WrittenElsewhere | src/eyedb/Attribute_inv.cc:342-605 | only the inverse ends of the changes are written |
| InverseLawsElem.EditableExactly | src/eyedb/Collection.cc:1053-1125 | distinct changes can be made exactly when what they take out is there |
| InverseDriver.StepElems | src/eyedb/Attribute_inv.cc:1087-1123 | a step changes the collections of its own two attributes only |
| InverseDriver.OtherPair | src/eyedb/Attribute_inv.cc:1087-1123 | a step leaves every other relationship of the schema as it was |
| InverseDriver.StepKeeps | src/eyedb/Attribute_inv.cc:1087-1123 | one attribute stored keeps every relationship of the schema, types and single ownership |
| InverseFrame.FitFrame | src/eyedb/AgregatClass.cc:1237-1248 | what makes one attribute fit to be stored survives the storing of an attribute of another relationship |
| InverseFrame.RoutedApart | src/eyedb/Attribute_inv.cc:1087-1130 | a routine that does not come to the object itself is blind to whether the object's other end was written yet |
| InverseFrame.OtherEndFit | src/eyedb/AgregatClass.cc:1237-1248 | where a class holds both ends and the object is not its own relative, the storing of one end leaves the other fit, in all three operations |
| Witnesses.NewFather | src/eyedb/AgregatClass.cc:1237-1248 | a concrete update, of a class with both ends, that the theorem over runs admits |
| InverseRuns.ItemsKeep | src/eyedb/AgregatClass.cc:1237-1248 | the attributes of an object, one after the other, keep all relationships at once, although the database keeps the old references until the final write |
| InverseRuns.CreateKeeps | src/eyedb/AgregatClass.cc:1224-1235 | storing a new object keeps every relationship of the schema |
| InverseRuns.UpdateKeeps | src/eyedb/AgregatClass.cc:1237-1248 | storing an object again, IDR stale or not, keeps every relationship |
| InverseRuns.RemoveKeeps | src/eyedb/AgregatClass.cc:1250-1261 | removing an object keeps every relationship, and afterwards no reference of one holds it and no collection of one contains it |
| InverseRuns.WriteKeeps | src/eyedb/Attribute_inv.cc:313-329 | writing a collection keeps every relationship of the schema |
| InverseRuns.WrittenApart | src/eyedb/Attribute_inv.cc:313-329 | writing a collection leaves the collections of all other relationships as they were |
| InverseRuns.RunKeeps | doc/manual/odl/ODL.tex:495-539 | referential integrity in every state of every run of creates, updates, removes and collection writes, from the empty database on; a class may hold both ends of a relationship as long as no object is its own relative |
| InverseSuccess.PreparedStep | src/eyedb/Attribute_inv.cc:1087-1130 | a database and an IDR whose collection attributes hold collections stay so, in all three operations |
| ObjectEffects.StepTakes | src/eyedb/Attribute_inv.cc:1087-1130 | one attribute stored takes, of the relations among other objects, exactly those of a partner it is given who can have one only |
| ObjectEffects.ItemsEffect | src/eyedb/AgregatClass.cc:1237-1248 | the same for all attributes of an object one after the other, each of which ends with what it was given |
| ObjectEffects.StoredExactly | src/eyedb/AgregatClass.cc:1224-1261 | of an object that fits the database, every attribute reads what it was given or, if removed, nothing; its collections hold what they held; and which relations among other objects are left |
| ObjectEffects.StoredPlainly | src/eyedb/AgregatClass.cc:1224-1261 | an attribute without an inverse holds what it was given, whatever else there is, and no other object's is touched |
| ObjectEffects.NothingLeft | src/eyedb/AgregatClass.cc:1250-1261 | no slot of a removed object is left, and nothing relates to it |
| ObjectStore.InverseRealize | src/eyedb/Attribute_inv.cc:1087-1130 | dispatch by the two ends' types; the step relation holds of database and IDR; succeeds exactly when the routine finds its collections |
| ObjectStore.InversesRealize | src/eyedb/AgregatClass.cc:1224-1262 | the loop over attributes is the composition of their steps; it fails only where the routine of one misses a collection after those before it, and never from a prepared state |
| ObjectStore.CreateObject | src/eyedb/AgregatClass.cc:1224-1235 | object written first, then inverses; when admissible it succeeds, keeps integrity, each attribute reads what it was given, with the elements a collection so given had, and relations among other objects go exactly where the new object takes a partner; an attribute without an inverse is stored as given and no other object's is touched, admissible or not |
| ObjectStore.UpdateObject | src/eyedb/AgregatClass.cc:1237-1248 | the same of inverses first, then the patched IDR |
| ObjectStore.RemoveObject | src/eyedb/AgregatClass.cc:1250-1261 | inverses first, then the object goes: no slot of it is left, and no other object's plain attribute is touched; when admissible it succeeds, keeps integrity, nothing relates to the object, and all other relations stay |
| ObjectStore.WriteCollection | src/eyedb/Attribute_inv.cc:313-329 | from a coherent database it succeeds exactly when every element to be removed is there; the collection then holds exactly what was inserted and what it held and was not to go, each changed element points to the owner or to nobody (for a collection inverse: names the owner or no longer), and attributes of other relationships are as they were; keeps integrity for distinct changes whose removed elements have one owner |
| SameClass.IdleKeepsAll | src/eyedb/Attribute_inv.cc:667-985 | storing the stored reference again changes no slot and no collection, in all four cardinalities |
| ClassFrame.OthersHomes | src/eyedb/AgregatClass.cc:1237-1248 | the attributes of a class that belong to other relationships, whatever references they are given, leave the collections of this one alone |
| SameClass.BothEnds11 | src/eyedb/Attribute_inv.cc:634-715 | both ends of a 1:1 in a class of any attributes, any references given for both: the relationship is kept exactly unless the end declared second is given the object itself and the first a new partner, and what is stored for each end |
| SameClass.OneEnd11 | src/eyedb/Attribute_inv.cc:693-704 | with one end moving, in either order, it is always kept; the reference given is stored exactly unless the end that moves comes second and the object was related to itself |
| SameClassMany.ReferenceFirst | src/eyedb/Attribute_inv.cc:725-915 | both ends of a 1:N in a class of any attributes, any reference and any collection given, reference declared first: kept exactly unless the object is among its own new members without becoming its own parent, or a robbed parent has other children; and what the object is left with |
| SameClassMany.CollectionFirst | src/eyedb/Attribute_inv.cc:725-915 | the same with the collection declared first, with its own exact condition |
| SameClassMany.StoredCollection | src/eyedb/Attribute_inv.cc:844-862 | where only the reference is new these conditions come to: reference first, an object that becomes its own parent leaves siblings; collection first, never |
| SameClassMany.OneEndNN | src/eyedb/Attribute_inv.cc:926-1075 | both ends of an N:N in one class, one collection being new, in either order: symmetry and single ownership are kept exactly when nobody else holds the collection given |
| SchemaCheck.GetAttribute | src/java/src/org/eyedb/Class.java:459-465 | the last attribute of a name, so a class's own before an inherited one; none exactly when no attribute has it |
| SchemaCheck.CheckInversePath | src/eyedb/AgregatClass.cc:207-261 | follows an inverse directive to the last attribute of that name, or to the attribute set; each of the three errors is reported exactly when its cause is there |
| SchemaCheck.CheckInverse | src/eyedb/AgregatClass.cc:263-294 | a class passes exactly when each attribute has no directive or leads to one whose own directive leads to an attribute with the same number, name, dimensions and type; each of the four errors has its cause |
| SchemaCheck.OkExactly | src/eyedb/AgregatClass.cc:207-294 | what the check asks of one attribute, in terms of where directives lead |
| SchemaCheck.InverseOfInverse | src/eyedb/AgregatClass.cc:263-294 | in a checked schema every inverse has an inverse, alike to the attribute one started from |
| SchemaCheck.RoutedDually | src/eyedb/Attribute_inv.cc:1110-1123 | in a checked schema an attribute goes to 1:N exactly when its inverse goes to N:1; 1:1 and N:N go to themselves |
| SchemaCheck.InvolutionExactly | src/eyedb/AgregatClass.cc:282 | "inverse of" leads back to an attribute exactly when the directive of its inverse gives a class that has the attribute, inherited or its own |
| SchemaCheck.InvolutionWhenTelling | src/eyedb/AgregatClass.cc:263-294 | it is an involution where no two attributes with an inverse compare equal |
| SchemaCheck.CheckedSchemaIsValid | src/eyedb/AgregatClass.cc:263-294 | a checked schema in which the directive of each inverse gives a class that has the attribute is one the run theorem applies to |
| SchemaCheck.SpouseOfSpouse | src/eyedb/AgregatClass.cc:525-531 | a self-inverse attribute, set and inherited, passes the check and leads back to itself |
| SchemaCheck.OwnBeforeInherited | src/eyedb/AgregatClass.cc:240-258 | where a class redeclares an attribute it inherits, a directive finds its own |
| SchemaCheck.BoatsBelongToNobody | src/eyedb/AgregatClass.cc:282 | a schema that passes the check and has an inverse that does not lead back |
| Witnesses.SelfSpouse | src/eyedb/Attribute_inv.cc:677-687 | a concrete 1:1 update that breaks symmetry |
| Witnesses.StolenCar | src/eyedb/Attribute_inv.cc:878-886 | a concrete N:1 assignment that breaks symmetry |
| Witnesses.SharedCourse | src/eyedb/Attribute_inv.cc:497-521 | a concrete N:N removal that breaks symmetry |
| Witnesses.OwnFather | src/eyedb/Attribute_inv.cc:844-862 | a concrete update of a self-parent that breaks symmetry, with the database it leaves |
| Witnesses.OwnChild | src/eyedb/Attribute_inv.cc:866-890 | a concrete update to a new parent and a new collection at once that breaks symmetry |
| Witnesses.StaleRemove | src/eyedb/Attribute_inv.cc:706-714 | a concrete removal with a stale IDR after which a reference to the removed object remains |
| Witnesses.TornPair | src/eyedb/Attribute_inv.cc:689-704 | a concrete 1:1 update of both ends that breaks symmetry |
| Witnesses.LostUpdate | src/eyedb/Attribute_inv.cc:1360-1365 | a concrete 1:1 update in one class after which the object is as it was |
| ArgumentLaws.StrTrip | src/eyedb/Argument_code.cc:140-148 | a NUL-free string is read back, and the cursor passes its terminator |
| ArgumentLaws.ObjTrip | src/eyedb/Argument_code.cc:303-338 | of an object its oid and class come back, or null when it was null or its class is unknown; the cursor ends past its IDR |
| ArgumentLaws.ListTrip | src/eyedb/Argument_code.cc:169-190 | an array is read back element by element wherever each element would be |
| ArgumentLaws.RoundTrip | src/eyedb/Argument_code.cc:193-497 | any argument tree, arrays in arrays included, is read back from wherever its bytes lie, but for object contents, and the cursor ends just past them |
| ArgumentLaws.RoundTripWhole | src/eyedb/Argument_code.cc:193-497 | an argument tree without objects is read back equal |
| ArgumentLaws.Unambiguous | src/eyedb/Argument_code.cc:193-299 | no argument's bytes are a prefix of another's |
| ArgumentLayout.CodeOf | src/java/src/org/eyedb/syscls/ArgType_Type.java:27-42 | the four bytes that each kind of argument starts with |
| ArgumentLayout.ScalarBytes | src/eyedb/Argument_code.cc:193-288 | a void argument is its code alone, a scalar its code and its memory |
| ArgumentLayout.StrBytes | src/eyedb/Argument_code.cc:140-148 | length with terminator, bytes, terminator |
| ArgumentLayout.RawBytes | src/eyedb/Argument_code.cc:193-288 | size and bytes |
| ArgumentLayout.ObjectBytes | src/eyedb/Argument_code.cc:150-167 | size of the IDR, oid, oid of the class, IDR, each at its place; a null object is a size of zero |
| ArgumentLayout.ArrayBytes | src/eyedb/Argument_code.cc:290-299 | a count and the elements in order, each with its own code |
| ArgumentLayout.ScalarsBytes | src/eyedb/Argument_code.cc:169-176 | a count and the values in order |
| ArgumentLayout.StrsBytes | src/eyedb/Argument_code.cc:268-275 | a count and the strings in order, without codes |
| ArgumentLayout.ObjectsBytes | src/eyedb/Argument_code.cc:276-283 | a count and the objects in order, without codes |
| ArgumentLayout.StrCursor | src/eyedb/Argument_code.cc:377-387 | a string is read to its first NUL, and the reader goes on where the written length says |
| ArgumentLayout.SignatureBytes | src/eyedb/Argument_code.cc:616-650 | result code, count, and each type code, followed for a plain object type by size and bytes of its class name |
| ArgumentCode.GetSize | src/eyedb/Argument_code.cc:48-121 | the size pre-pass gives the number of bytes the writer emits |
| ArgumentCode.GetArgsSize | src/eyedb/Argument_code.cc:123-135 | likewise for an array of arguments |
| ArgumentCode.CodeStr | src/eyedb/Argument_code.cc:140-148 | writes the string's bytes at the cursor and nothing else |
| ArgumentCode.CodeObj | src/eyedb/Argument_code.cc:150-167 | writes a null or non-null object at the cursor and nothing else |
| ArgumentCode.CodeArg | src/eyedb/Argument_code.cc:193-288 | writes exactly the argument's bytes, leaves the rest of the buffer, advances the cursor by their number |
| ArgumentCode.CodeArgs | src/eyedb/Argument_code.cc:290-299 | likewise for an array of arguments |
| ArgumentReader.TakeStr | src/eyedb/Argument_code.cc:377-387 | reads up to the NUL but advances by the length written |
| ArgumentReader.TakeObj | src/eyedb/Argument_code.cc:303-338 | reads an object's identity and passes its IDR |
| ArgumentReader.DecodeArg | src/eyedb/Argument_code.cc:340-485 | computes `Dec`, and ends: every nested argument starts further on |
| ArgumentReader.DecodeArgs | src/eyedb/Argument_code.cc:487-497 | computes `DecArgs` |
| ArgumentData.RpcData.CodeArgArray | src/eyedb/Argument_code.cc:511-540 | the allocated buffer is filled with no gap and no overrun |
| ArgumentData.RpcData.CodeArgument | src/eyedb/Argument_code.cc:582-595 | appends the argument's bytes and keeps what was there |
| ArgumentData.RpcData.DecodeArgArray | src/eyedb/Argument_code.cc:542-576 | returns the arguments and the offset just past them |
| ArgumentData.RpcData.DecodeArgument | src/eyedb/Argument_code.cc:597-608 | reads the argument at an offset |
| ArgumentData.Chained | src/eyedb/Argument_code.cc:542-608 | the offset returned after reading the array is where the appended argument is read back |
| ArgumentData.SendAndReceive | src/eyedb/Argument_code.cc:511-608 | code an array, append an argument, decode both: what comes out is what went in |
| SignatureCode.AllocationExactly | src/eyedb/Argument_code.cc:616-650 | the allocation for a signature is never too large, and large enough exactly without plain object types |
| SignatureCode.SignatureTrip | src/eyedb/Argument_code.cc:616-712 | a signature is read back, the bytes of its class names included, and the cursor ends just past it; without object types that fills its allocation |
| SignatureCode.NameExactly | src/eyedb/Argument_code.cc:695-704 | the class name a type gets is the one sent exactly when the memory behind its unterminated copy starts with a NUL |
| SignatureCode.CodeSignature | src/eyedb/Argument_code.cc:616-650 | the final assertion that the allocation is filled holds exactly without plain object types, and then the signature is there |
| SignatureCode.DecodeSignature | src/eyedb/Argument_code.cc:653-712 | computes `DecSig`, class names included |
| GraphStore.Node.SetItemOid | src/eyedb/Agregat.cc:54-74 | a slot that already holds the oid is not a change |
| GraphStore.EnterSound | src/eyedb/Agregat.cc:294-310 | on coming to an object it gets its flag and, if new, a fresh oid, before its references are followed |
| GraphStore.LeaveSound | src/eyedb/Agregat.cc:315-355 | on leaving an object it is in the database with the oids of all it refers to |
| GraphWalk.Realize | src/eyedb/Agregat.cc:268-361 | the recursive store ends on every finite graph, cyclic or shared, with or without the map, and does what `Walked` says |
| GraphWalk.Follow | src/eyedb/Agregat.cc:363-381 | the loop over an object's references |
| GraphWalk.WalkedLaws | src/eyedb/Agregat.cc:268-381 | the walk's invariant holds after it, and objects met before are untouched, flags included but for those the map leaves |
| GraphLaws.StoresReachable | src/eyedb/Agregat.cc:268-381 | a store stores what can be reached from the root, all of it and nothing else |
| GraphLaws.StoresFaithfully | src/eyedb/Agregat.cc:268-381 | each object stored is in the database as in memory with the oids of its references; all else is unchanged |
| GraphLaws.CreatesOnce | src/eyedb/Agregat.cc:319-333 | the number of objectCreate calls is the number of new objects reached: once each |
| GraphLaws.Flags | src/eyedb/Agregat.cc:296-300 | without the map all flags are clear afterwards; with it only objects stored may keep one, never the root |
| GraphFlags.WalkedOrdered | src/eyedb/Agregat.cc:268-361 | where no flag is left, what the walk stores while it is at an object can be entered from outside through that object only, by one reference |
| GraphFlags.FlagsClearExactly | src/eyedb/Agregat.cc:294-355 | after a store with the map, all flags are clear exactly when no object is referred to twice, references from objects that can only be reached through it apart |
| GraphFlags.DoubleReference | src/eyedb/Agregat.cc:296-300 | two references of the root to one object are enough to break that |
| GraphFlags.UpdatesLost | src/eyedb/Agregat.cc:268-275 | otherwise some object that was stored is never written again: through any later stores, of whatever roots and whatever changes come between them, the database keeps what it has of it |
| GraphFlags.MayChange | src/eyedb/Agregat.cc:54-74 | between two stores the slots of such an object may change in any way |
| GraphFlags.NeverWritten | src/eyedb/Agregat.cc:268-275 | an object whose flag is set is passed over by every store, and so by every sequence of stores |
| GraphLaws.Store | src/eyedb/Object.cc:360-372 | Object::store with the map of stored objects |
| CycleWalk.CycleContext.ManageCycle | src/eyedb/gbx.cc:496-502 | a cycle once found is never cleared |
| CycleWalk.FoundExactly | src/eyedb/Agregat.cc:383-412 | the search along unmarked objects finds a slot exactly when the object can be reached from itself |
| CycleWalk.FoundWalk | src/eyedb/Agregat.cc:383-412 | the slot it finds is the last link of such a walk |
| CycleWalk.FollowSlot | src/eyedb/Agregat.cc:407-408 | one slot: cleared if it closes the cycle |
| CycleWalk.ManageCycle | src/eyedb/Agregat.cc:383-412 | the search ends on every graph, restores every mark, and clears at most the slot found |
| CycleWalk.DetectCycle | src/eyedb/gbx.cc:318-338 | a cycle is reported exactly when there is one; one slot that refers to the object is cleared then, nothing otherwise |
| IndexBuild.Fill | src/eyedb/Attribute_idx.cc:243-257 | the buffer afterwards is the key of this value, whatever it held before |
| IndexBuild.CreateEntriesRealize | src/eyedb/Attribute_idx.cc:236-265 | one entry for each position of a plain attribute of fixed size |
| IndexBuild.CreateEntries | src/eyedb/Attribute_idx.cc:86-138 | the recursive walk along the path, from a sub-object or from the instance, inserts the instance's entries |
| IndexBuild.UpdateIndexEntries | src/eyedb/Attribute_idx.cc:272-343 | the index gains the entries of every instance, with their multiplicities |
| IndexLaws.OnePerTuple | src/eyedb/Attribute_idx.cc:86-138 | an instance's entries are in bijection with the tuples of positions along the path |
| IndexLaws.FoundExactly | src/eyedb/Attribute_idx.cc:272-343 | an instance is in the index under a key exactly when going along its path comes to a value with that key |
| IndexLaws.CountExactly | src/eyedb/Attribute_idx.cc:272-343 | an entry is in the index as often as its instance is in the extent, times as often as it is among the instance's entries |
| IndexLaws.KeyBytes | src/eyedb/Attribute_idx.cc:243-258 | flag '0' or '1', position with the least significant byte first, bytes of the value |
| IndexLaws.KeyTellsAll | src/eyedb/Attribute_idx.cc:257-258 | a key determines null flag, position and bytes |
| Clock.Usec2Clock | src/eyedb/ClockConverter.cc:82-117 | the fields add up to the microseconds, each below the unit above it and of one sign, hours cut to 16 bits |
| Clock.SplitOnce | src/eyedb/ClockConverter.cc:82-117 | no other fields do |
| Clock.TextTrip | src/eyedb/ClockConverter.cc:164-255 | a printed time and its prefixes parse to the time and its truncations |
| Clock.UsecTripExactly | src/eyedb/ClockConverter.cc:164-255 | over all 64-bit values parsing undoes printing exactly from 0 to below a hundred hours |
| Clock.UsecPrefixes | src/eyedb/ClockConverter.cc:185-217 | the first 5, 8 or 12 characters give the minute, second or millisecond |
| Clock.TextTripExactly | src/eyedb/ClockConverter.cc:164-255 | over all texts printing undoes parsing exactly for well-formed ones |
| Clock.ClockReads | src/eyedb/ClockConverter.cc:164-239 | what a text of digits of each length says in microseconds; a text of any other length is midnight |
| Clock.AtoiReads | src/eyedb/ClockConverter.cc:224-228 | spaces are skipped, one sign is heeded, digits are read up to the first character that is none |
| Clock.PadReads | src/eyedb/ClockConverter.cc:241-255 | the digits of the number, zeros only to fill the width, a minus before a negative one |
| Clock.TzSplit | src/eyedb/ClockConverter.cc:139-158 | hours and minutes of a zone lose whole days only |
| Clock.TzTrip | src/eyedb/ClockConverter.cc:259-351 | over all 16-bit zones, printing and parsing give the zone back up to whole days, sign kept below one hour |
| Clock.TzTripExactly | src/eyedb/ClockConverter.cc:259-351 | hence the zone itself exactly when it is less than a day |
| Clock.TzReads | src/eyedb/ClockConverter.cc:259-325 | what a text of digits says: hours up to whole days, minutes in the longer form only, one sign for both |
| Clock.TzPrefix | src/eyedb/ClockConverter.cc:283-296 | the first six characters of a printed zone give its whole hours, sign included |
| Clock.TzShape | src/eyedb/ClockConverter.cc:327-351 | "GMT", a sign, two digits, a colon, two digits below sixty |
| ClockConverter.UsecTextFits | src/eyedb/ClockConverter.cc:55-57 | no 64-bit value prints beyond the 32 characters of the buffer |
| ClockConverter.AtoiInt16 | src/eyedb/ClockConverter.cc:224-228 | a field of up to three characters is not changed by its cut to 16 bits |
| ClockConverter.Cuts | src/eyedb/ClockConverter.cc:193-217 | after the cuts each field is a C string of its own |
| ClockConverter.ClockConverter.Ascii2Usec | src/eyedb/ClockConverter.cc:164-239 | cutting the buffer in place, case after case, computes `TextUsec` for every text; any length but 5, 8, 12 and 16 is midnight |
| ClockConverter.ClockConverter.Usec2Ascii | src/eyedb/ClockConverter.cc:241-255 | prints `UsecText` within the buffer |
| ClockConverter.ClockConverter.Ascii2Tz | src/eyedb/ClockConverter.cc:259-325 | a text of six or nine characters gives its hours, up to whole days, and its minutes, with the sign at its fourth; any other length gives zone 0 |
| ClockConverter.ClockConverter.Tz2Ascii | src/eyedb/ClockConverter.cc:327-351 | prints `TzText` within the buffer |

## Left out

- Union classes: only the current item's inverse is maintained, and its status is dropped.
- Bags, arrays and lists: collections are sets; a literal collection, stored inside its owner, is not modelled.
- An N:N attribute that is its own inverse.
- InverseRuns.RunKeeps: where a class holds both ends of a relationship, an object that is or becomes its own relative, or takes members or a collection from others, is not admitted (`SameClass` and `SameClassMany` have the exact results for such an update).
- SameClassMany.OneEndNN: two new collections in one update are not treated.
- SameClassMany.ReferenceFirst: the collection given is not one that another attribute holds; other attributes could change it on the way.
- An in-memory collection that differs from the stored one of the same oid; oids of other databases; failures of the storage manager.
- Index upkeep inside `inverse_write_oid`, `InvOidContext`, requalification of inverse items, `completeInverse`, logging, and the code compiled out by `N_N_SIMPLE` and `PERF_POOL`.
- Store.Database.CreateCollection: always makes a new collection, because the code returns an existing one only for literal collections, which are not modelled.
- SignatureCode.CodeSignature: what is written past the end of the allocation is not followed.
- Attribute layout: a slot is known by object and attribute, not by its offset in the IDR.
- Scoped names (`class::attribute`) in `getAttribute`, which are looked up in the schema of the class's database.
- The cleanup after a failed create, and deletion of a whole collection.
- InverseLawsNN.RemoveNNExactly: asks that the collection given is no inverse collection, which its type forbids.
- ArgumentCode.GetSize: sizes are unbounded; the code adds them up in 32 bits, so an array of arguments must stay below that.
- ArgumentReader.DecodeArg: the buffer must hold an argument at the cursor, because the code checks no bounds; an unknown type code aborts in the code.
- ArgumentLaws.ObjTrip: nothing about the contents of a decoded object, because the code moves the cursor past the IDR before it builds the object from it.
- Arguments of type any or byte, which abort; a machine with another byte order or size of oid.
- Decoding into an argument array of the caller instead of a new one.
- Master objects, caching, cardinality and inverse upkeep during the recursive store, and recursion modes that follow some references only.
- Reference counts around the cycle search, and the exception it throws when release detection is on.
- IndexBuild.CreateEntries: sub-objects are always there, because a path may go through embedded objects only (`checkAttrPath` in `src/eyedb/Attribute.cc` refuses any other).
- IndexBuild.UpdateIndexEntries: likewise.
- Index keys of strings and of collections, and attributes of variable size at the end of a path, for which the code leaves its loop bound unset.
- Current time and local time zone, which ask the system.

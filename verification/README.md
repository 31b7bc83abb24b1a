# Minter: models and proofs

Minter is a Tendermint application with its own coin ledger: custom coins backed by reserves of the
base coin, candidates and validators with delegated stakes, block rewards, and transactions that move
and convert coins. The repository also holds the codecs and cryptographic kernels the ledger rests on.
This project models the parts of it whose correctness is least obvious, in the form the code has them,
and proves what they promise.

| Part | Modules | Main results |
|---|---|---|
| RLP codec | RlpFormat, RlpLayout, RlpEncoder, RlpDecoder, RlpRaw | A byte string is accepted exactly when it is the encoding of the value returned; deferred list headers give the recursive encoding, in one piece, through a writer or through reads of any size; the stream machine does what a recursive reader does on every input |
| bn256 base field | Words, Gfp, Modular, Montgomery, GfpBytes | Montgomery multiplication from 16x32-bit pieces is exact, reduced and may overwrite its operands; inversion is the power p - 2 |
| bn256 tower | Tower, GfpTower | Karatsuba, complex squaring, powers and inverses equal the schoolbook arithmetic, in place |
| Keccak | Keccak, KeccakBits, Sponge | The unrolled in-place permutation is that of FIPS 202, whose step mappings are stated bit by bit; the buffering sponge gives the standard's output for any split of input and output |
| secp256k1 | Wnaf, Ecmult, Der, DerParsers | Both recodings stand for the scalar, so both loops compute the multiple; strict DER parsing accepts exactly what the serializer writes, and the lax parser agrees |
| Coin transactions | Ledger, StateDb, Conversion, Transactions, RunTx, Trades | Send, sell, sell-all and buy succeed exactly under stated conditions, change each balance, volume and reserve by stated amounts, conserve every coin, leave no debts, and change nothing when refused |
| Liquidation | Liquidation | Deleting a coin pays out its whole reserve, to every account, frozen fund and stake owner at least the share it began with |
| Stakes and rewards | Staking, Slashing, FundPenalty, Elections, ValidatorSet, Payout, Blocks, Emission, StakeTx, Owners, Marks, Departures, Steps, Chain, Runs | A validator's total never falls below the base values it is divided by, so payouts are exact; who gets and who loses what is stated account by account; over any run of blocks the supply follows the emission schedule, less what is lost, and when anything is lost is stated exactly |
| Account cache | AccountCache | The write-back cache answers as plain maps do, across commits |

`Common` and `Arith` hold small vocabulary and arithmetic. Objects the code updates in place are classes
with the same fields, loops are loops with invariants, and each such method is proved against a
function or predicate whose own properties are the lemmas. `dafny verify dfyconfig.toml` checks the
whole project.

Some choices a reader should know:

- Pricing curves (`formula`, floating point) are parameters: arbitrary functions to non-negative integers,
  and to any integer where a purchase is asked for with a negative amount. Every conservation result holds
  for all of them, reserves of removed coins apart. The branches at a reserve ratio of 100 percent, on
  which liquidation rests, are modelled as they are.
- A state is a `Books` value; `Base` is all base coin in it, wherever it is, and the `Gap` of a custom coin
  is its recorded volume less what accounts, stakes and frozen funds hold of it. `Conserves` says that
  neither changes.
- `Wealth` is what one account has of one coin, in its balance, its stakes and the funds frozen for it.
  `WealthKept` says that nobody's changes.
- `Sound` is the stake invariant: keys are distinct, and for each validator the base values of its
  candidate's stakes add up to at most its total stake.
- The first sort in `GetCandidates` orders ties in a way the ledger does not fix; it is an arbitrary
  permutation given as a parameter.
- Points are elements of any abelian group in which the order of secp256k1 times the points used is zero.
- Elements of the tower are tracked exactly: an object `Is(e)` when its coordinates are the residues of
  those of e, an element of the same tower over the integers. `GfpTower` computes on base field values;
  `Montgomery` shows what the limb operations do to the values they hold.

Where code and comments disagree, the model follows the code:

- gfp6.go speaks of xi = i + 3, while `MulXi` multiplies by i + 9.
- `gfP12.MulScalar` takes an element and a scalar but multiplies the receiver. `GfpTower.MulScalarIff` says
  exactly when that makes no difference.
- `gfP.Unmarshal` adds to the limbs already there; it reads the number exactly into cleared ones
  (`GfpBytes.UnmarshalIff`).
- Before the first upgrade, a buy that pays with one custom coin for another and for the gas loses base
  coin. `RunTx.LeakIff` says exactly when, `RunTx.EarlyBuyLoses` is one that does.
- A commit drops balances that are not positive. `AccountCache.SettledAnswers` says exactly when that
  shows.
- Accruals of validators that are replaced between two payouts leave the ledger. `Runs.SupplyIff` says
  exactly when a block loses any, `Runs.RunIff` when a run does, and `Runs.LosingBlock` is a block that does.
- A coin deleted with no volume keeps whatever reserve it had (`Liquidation.DeleteAbandoned`), and a commit
  removes a coin with no volume together with its reserve. `Runs.WholeSupplyIff` says exactly when a block
  loses neither accruals nor reserves; `Runs.GasTakesAll` and `Runs.RemovalLosesReserve` are a transaction
  after which a reserve is lost.

## Model

| member | source | states |
|---|---|---|
| RlpFormat.DecodeWholeIff | rlp/decode.go:136-146 | a byte string shorter than 2^64 decodes to a value exactly when it is that value's encoding: canonical form, no trailing data, and the round trip, both directions at once |
| RlpFormat.DecodeIsCanonical | rlp/decode.go:944-1004 | the bytes of any value that is accepted, at any depth, are the encoding of the value returned |
| RlpFormat.EncodeRoundTrip | rlp/decode.go:523-545 | an encoding is read back as its value, whatever bytes follow, and exactly its own length is used |
| RlpFormat.EncodePrefixFree | rlp/encode.go:80-105 | no encoding is a proper prefix of another, and different values encode differently |
| RlpFormat.LongHeadIsHeader | rlp/decode.go:972-1003 | a long-form tag that is accepted is the one the encoder writes for that size |
| RlpFormat.DecodeUintIff | rlp/decode.go:715-746 | the integer reader accepts exactly the encodings of integers that fit, with value and length |
| RlpFormat.KnownStrings | rlp/encode_test.go:126-151 | strings of 0, 1, 3, 55, 56 and 1024 bytes are written as the tests expect, byte for byte |
| RlpFormat.KnownList | rlp/encode_test.go:153-164 | the empty list and a list of two strings, byte for byte |
| RlpFormat.KnownNesting | rlp/encode_test.go:156-160 | three nested levels of empty lists, byte for byte |
| RlpFormat.FirstWeighs | rlp/decode.go:1006-1031 | of the bytes of an integer the first weighs most |
| RlpFormat.KnownErrors | rlp/decode.go:972-1003 | which error refuses an empty input, trailing data, a size in a longer form than needed, and content that the input or the enclosing list does not hold |
| RlpFormat.KnownUintErrors | rlp/decode_test.go:375-380 | which error refuses an integer that is too long, a list, a leading zero, and a size in a longer form than needed |
| RlpLayout.SpliceIsEncode | rlp/encode.go:217-246 | string data with the deferred headers spliced in is the recursive encoding, for every value tree |
| RlpLayout.SpliceItem | rlp/encode.go:230-246 | adding a value's data and headers to any buffers adds its encoding to what they splice to |
| RlpLayout.PutIsLayout | rlp/encode.go:211-224 | opening a list, writing the elements and fixing the size at the end records the headers the layout has, at any nesting |
| RlpLayout.DoneIsPrefix | rlp/encode.go:306-337 | what a reader has passed at any position is a prefix of the whole output |
| RlpLayout.HandOut | rlp/encode.go:281-302 | taking k bytes of the pending piece takes exactly k bytes off the front of what remains |
| RlpEncoder.PutInt | rlp/encode.go:585-640 | writes the shortest big-endian form, one byte for zero, says how many bytes, and touches nothing else of the buffer |
| RlpEncoder.IntSize | rlp/encode.go:643-649 | the number of bytes putint writes |
| RlpEncoder.HeadSize | rlp/encode.go:141-146 | the length of a string header and of a list header of that size |
| RlpEncoder.PutHead | rlp/encode.go:150-158 | writes the header of the format for any size, small or large, and nothing outside it |
| RlpEncoder.EncBuf.EncodeStringHeader | rlp/encode.go:190-199 | the string data grows by the string header of the format |
| RlpEncoder.EncBuf.EncodeString | rlp/encode.go:201-209 | the string data grows by the string's encoding; headers stay as they are |
| RlpEncoder.EncBuf.WriteUint | rlp/encode.go:390-404 | the string data grows by the integer's encoding, in each of its three forms |
| RlpEncoder.UintForms | rlp/encode.go:392-402 | which form the encoding of a 64-bit integer takes |
| RlpEncoder.EncBuf.List | rlp/encode.go:211-215 | records a header at the current offset with the header bytes so far |
| RlpEncoder.EncBuf.ListEnd | rlp/encode.go:217-224 | the size becomes what was written since, and the header length counts towards enclosing lists |
| RlpEncoder.EncBuf.WriteItem | rlp/encode.go:507-525 | writing any value tree leaves the buffers as the layout functions say |
| RlpEncoder.EncBuf.ToBytes | rlp/encode.go:230-246 | the array returned is the data with every header spliced in |
| RlpEncoder.EncBuf.ToWriter | rlp/encode.go:248-270 | the same bytes reach the writer; when it fails, a prefix of them has |
| RlpEncoder.EncodeToBytes | rlp/encode.go:97-105 | the bytes are the recursive encoding of the value |
| RlpEncoder.EncReader.Next | rlp/encode.go:306-337 | hands out the next piece without losing any of what remains; none only at the end |
| RlpEncoder.EncReader.Read | rlp/encode.go:281-302 | for any buffer size: fills the buffer with the next bytes of the same output, leaves the rest of it alone, keeps what remains, and reports the end exactly with the last byte |
| RlpDecoder.Stream.WillRead | rlp/decode.go:1058-1076 | a read is let through exactly when it fits the innermost list or the budget, every open list is advanced, and a refused read changes nothing |
| RlpDecoder.Stream.ReadFull | rlp/decode.go:1032-1045 | fills the range with exactly the next bytes whatever the reader returns at a time, or fails because they do not fit |
| RlpDecoder.Stream.ReadByte | rlp/decode.go:1047-1056 | the next byte, or an error exactly when there is none |
| RlpDecoder.Stream.ReadUint | rlp/decode.go:1006-1030 | the big-endian integer, or the error for a leading zero or missing bytes |
| RlpDecoder.Stream.ReadKind | rlp/decode.go:944-1004 | kind, size and error of every tag byte, and how much of the input the head takes |
| RlpDecoder.Stream.Kind | rlp/decode.go:911-942 | the head is read once: later calls change nothing and answer the same, errors included; a size beyond the enclosing list is refused |
| RlpDecoder.Stream.Bytes | rlp/decode.go:660-681 | the string ahead, whether its head is cached or not, with the single-byte rule |
| RlpDecoder.Stream.Raw | rlp/decode.go:684-706 | the value exactly as it stood in the input, header included |
| RlpDecoder.RawIsPrefix | rlp/decode.go:684-706 | a header rebuilt from kind and size is the header that was read |
| RlpDecoder.Stream.Uint | rlp/decode.go:715-746 | agrees with the integer reader on value, consumption and error |
| RlpDecoder.Stream.List | rlp/decode.go:769-781 | entering a list pushes a frame of the announced size, which fits what is left of the outer one |
| RlpDecoder.Stream.ListEnd | rlp/decode.go:785-800 | leaves a list exactly when it has been read to its end, and accounts for it in the enclosing one |
| RlpDecoder.Stream.DecodeInterface | rlp/decode.go:523-545 | on any input and in any list: value, consumption, stack and error are those of the reader function |
| RlpDecoder.Stream.DecodeListSlice | rlp/decode.go:335-348 | the list whose head was read is decoded to its last byte and left, or its error is returned |
| RlpDecoder.Stream.DecodeSliceElems | rlp/decode.go:350-377 | decodes elements until exactly the end of the innermost list; terminates because the reader moves on |
| RlpDecoder.EolAtEnd | rlp/decode.go:911-942 | the end of a list is reported exactly when nothing is left of it |
| RlpDecoder.DecodeBytes | rlp/decode.go:136-146 | answers as DecodeWhole on every byte string, errors included |
| RlpRaw.RawAgreesWithStream | rlp/raw.go:86-125 | the slice-based reader accepts the same heads as the stream, but for a string whose content the stream refuses only when it is read; kind, size and content are the same |
| RlpRaw.SplitOfEncoding | rlp/raw.go:39-45 | splitting an encoding gives the value's content and exactly what followed |
| RlpRaw.CountOfEncoding | rlp/raw.go:74-84 | as many values are counted as were encoded one after another |
| RlpRaw.CountValues | rlp/raw.go:74-84 | the loop computes the recursive count, with its errors |
| Words.CarryIsExact | crypto/bn256/cloudflare/gfp_generic.go:39-44 | the carry formula from bitwise operations is the carry out of a 64-bit addition with carry in |
| Words.BorrowIsExact | crypto/bn256/cloudflare/gfp_generic.go:9-14 | the borrow formula is the borrow out of a 64-bit subtraction with borrow in |
| Words.Select | crypto/bn256/cloudflare/gfp_generic.go:17-23 | the two masks choose one of two words |
| Gfp.AddLimbs | crypto/bn256/cloudflare/gfp_generic.go:38-44 | a ripple of carries adds any number of limbs exactly; the result may overwrite an operand |
| Gfp.SubLimbs | crypto/bn256/cloudflare/gfp_generic.go:8-14 | the same for subtraction with its borrow |
| Gfp.AddProduct | crypto/bn256/cloudflare/gfp_generic.go:77-88 | the six 16-bit columns that receive the pieces of two words gain exactly their product, without overflow |
| Gfp.AddRow | crypto/bn256/cloudflare/gfp_generic.go:76-90 | the columns gain a whole row of the product, each staying below its bound |
| Gfp.LanesOfColumns | crypto/bn256/cloudflare/gfp_generic.go:92-109 | the 16-bit columns taken four apart weigh what all of them do |
| Gfp.MergeWord | crypto/bn256/cloudflare/gfp_generic.go:99-105 | shifting a column into place loses nothing but the carry and the bits moved to the next word |
| Gfp.Merge | crypto/bn256/cloudflare/gfp_generic.go:92-107 | merging a lane adds it, shifted, to lane 0 modulo the top |
| Gfp.Multiply | crypto/bn256/cloudflare/gfp_generic.go:69-110 | mul is the exact 512-bit product of any two four-limb numbers |
| Gfp.HalfMultiply | crypto/bn256/cloudflare/gfp_generic.go:112-156 | halfMul is the product modulo 2^256 |
| Gfp.PrimeOfCurve | crypto/bn256/cloudflare/constants.go:16-23 | the prime is 36u^4 + 36u^3 + 24u^2 + 6u + 1 for the curve's u |
| Montgomery.GfpCarry | crypto/bn256/cloudflare/gfp_generic.go:5-24 | subtracts p once exactly when the five-limb value is at least p |
| Montgomery.GfpNeg | crypto/bn256/cloudflare/gfp_generic.go:26-35 | p - a, reduced; result and operand may be the same |
| Montgomery.GfpAdd | crypto/bn256/cloudflare/gfp_generic.go:37-46 | the sum modulo p, under any aliasing |
| Montgomery.GfpSub | crypto/bn256/cloudflare/gfp_generic.go:48-67 | the difference modulo p, under any aliasing |
| Montgomery.LowLimbsCancel | crypto/bn256/cloudflare/constants.go:26-29 | adding m * p clears the low 256 bits when np * p is -1 there |
| Montgomery.HighLimbs | crypto/bn256/cloudflare/gfp_generic.go:163-172 | what is left after dropping the low limbs is below 2p when the product is below p * 2^256, so one subtraction is enough |
| Montgomery.AddMultipleOfP | crypto/bn256/cloudflare/gfp_generic.go:160-169 | the eight-limb sum of product and m * p, with its carry, is exact and divisible by 2^256 |
| Montgomery.GfpMul | crypto/bn256/cloudflare/gfp_generic.go:158-173 | c * 2^256 is congruent to a * b modulo p, and c < p whenever a * b < p * 2^256; c may be a or b |
| Montgomery.MontgomeryProduct | crypto/bn256/cloudflare/gfp_generic.go:158-173 | the element held by such a result is the product of the elements held |
| Montgomery.RealSums | crypto/bn256/cloudflare/gfp_generic.go:26-67 | sums, differences and negations hold the sum, difference and negation of what their operands hold |
| Montgomery.RealIff | crypto/bn256/cloudflare/gfp.go:80-81 | a limb number holds x exactly when it is congruent to x * 2^256 |
| Montgomery.MontEncode | crypto/bn256/cloudflare/gfp.go:80-80 | the result is reduced and holds a modulo p |
| Montgomery.MontDecode | crypto/bn256/cloudflare/gfp.go:81-81 | the result is the element held |
| Montgomery.NextBit | crypto/bn256/cloudflare/gfp.go:40-47 | the bit read by the inner loop is the next binary digit of p - 2 |
| Montgomery.Invert | crypto/bn256/cloudflare/gfp.go:33-51 | the result holds x^(p-2) for the x held by the operand, which it may overwrite |
| Montgomery.InverseByFermat | crypto/bn256/cloudflare/gfp.go:33-51 | x^(p-2) is the inverse of x where Fermat's little theorem holds for x |
| GfpBytes.Marshal | crypto/bn256/cloudflare/gfp.go:53-59 | the 32 bytes are the big-endian form of the number; the rest of the buffer is untouched |
| GfpBytes.Unmarshal | crypto/bn256/cloudflare/gfp.go:61-78 | each limb gains its eight bytes, wrapping around, and the answer is how the outcome compares with p |
| GfpBytes.UnmarshalValue | crypto/bn256/cloudflare/gfp.go:61-66 | into cleared limbs that is the big-endian number |
| GfpBytes.UnmarshalIff | crypto/bn256/cloudflare/gfp.go:61-66 | the number is read correctly if and only if the limbs were cleared before |
| GfpBytes.Decided | crypto/bn256/cloudflare/gfp.go:67-77 | the most significant limb that differs decides the comparison |
| Tower.Generators | crypto/bn256/cloudflare/gfp12.go:11-15 | i^2 = -1, tau^3 = xi and omega^2 = tau hold of the schoolbook products |
| Tower.Karatsuba | crypto/bn256/cloudflare/gfp6.go:94-122 | three products and the products of sums make all nine schoolbook terms |
| Tower.ComplexSquare2 | crypto/bn256/cloudflare/gfp2.go:124-138 | complex squaring is the schoolbook square |
| Tower.ComplexSquare12 | crypto/bn256/cloudflare/gfp12.go:130-144 | the same over the sextic field |
| Tower.Mul6Assoc | crypto/bn256/cloudflare/gfp6.go:94-122 | schoolbook multiplication modulo tau^3 = xi is associative |
| Tower.Mul12Assoc | crypto/bn256/cloudflare/gfp12.go:94-105 | schoolbook multiplication modulo omega^2 = tau is associative |
| Tower.Power12Sum | crypto/bn256/cloudflare/gfp12.go:113-128 | powers of an element multiply by adding exponents |
| Tower.AdjointNorm | crypto/bn256/cloudflare/gfp6.go:171-213 | an element times its adjoint is its norm in the quadratic field |
| Tower.Conjugate12 | crypto/bn256/cloudflare/gfp12.go:146-160 | an element times its conjugate is its norm in the sextic field |
| GfpTower.GfP2.Mul | crypto/bn256/cloudflare/gfp2.go:78-92 | the residue of the schoolbook product; the receiver may be either operand |
| GfpTower.GfP2.MulXi | crypto/bn256/cloudflare/gfp2.go:101-122 | the residue of the product with i + 9 |
| GfpTower.GfP2.Square | crypto/bn256/cloudflare/gfp2.go:124-138 | the residue of the schoolbook square, also in place |
| GfpTower.GfP2.Invert | crypto/bn256/cloudflare/gfp2.go:140-156 | the conjugate over the norm; times the operand it is 1 where Fermat's theorem holds for the norm |
| GfpTower.GfP6.Mul | crypto/bn256/cloudflare/gfp6.go:94-122 | the residue of the schoolbook product; operands may share any parts with the receiver |
| GfpTower.GfP6.MulTau | crypto/bn256/cloudflare/gfp6.go:139-147 | the residue of tau times the operand, also in place |
| GfpTower.GfP6.Square | crypto/bn256/cloudflare/gfp6.go:149-169 | the residue of the schoolbook square, also in place |
| GfpTower.GfP6.Invert | crypto/bn256/cloudflare/gfp6.go:171-213 | times the operand it is 1 where Fermat's theorem holds for the norm, also in place |
| GfpTower.GfP12.Mul | crypto/bn256/cloudflare/gfp12.go:94-105 | the residue of the schoolbook product, under any aliasing |
| GfpTower.GfP12.MulScalar | crypto/bn256/cloudflare/gfp12.go:107-111 | multiplies the receiver, not the first operand, by an element of the sextic field |
| GfpTower.MulScalarIff | crypto/bn256/cloudflare/gfp12.go:107-111 | for an invertible scalar the result is the product of the two operands if and only if the receiver was, up to residue, the first of them |
| GfpTower.GfP12.Exp | crypto/bn256/cloudflare/gfp12.go:113-128 | the residue of the operand multiplied by itself as often as the exponent says, for every exponent |
| GfpTower.NextPower | crypto/bn256/cloudflare/gfp12.go:117-124 | one more bit of the exponent squares the power and takes the base in when it is set |
| GfpTower.GfP12.Square | crypto/bn256/cloudflare/gfp12.go:130-144 | the residue of the schoolbook square, also in place |
| GfpTower.GfP12.Invert | crypto/bn256/cloudflare/gfp12.go:146-160 | times the operand it is 1 where Fermat's theorem holds for the norm, also in place |
| Keccak.KeccakF1600 | crypto/sha3/keccakf.go:39-412 | for every state: the array becomes 24 rounds of the standard's theta, rho, pi, chi and iota, each of which KeccakBits states bit by bit |
| Keccak.FourRounds | crypto/sha3/keccakf.go:44-410 | one turn of the unrolled loop advances the standard state by four rounds, every lane back in its place |
| Keccak.Round1 | crypto/sha3/keccakf.go:48-138 | after the first unrolled round the array holds the next standard state under a fixed relabelling of lanes |
| Keccak.Round2 | crypto/sha3/keccakf.go:139-229 | the same for the second round, from one relabelling to the next |
| Keccak.Round3 | crypto/sha3/keccakf.go:230-320 | the same for the third round |
| Keccak.Round4 | crypto/sha3/keccakf.go:321-409 | the same for the fourth round |
| Keccak.HomeAgain | crypto/sha3/keccakf.go:321-410 | after four rounds, as before the first, the relabelling is the identity |
| Keccak.ColumnParities | crypto/sha3/keccakf.go:49-58 | the column sums are those of theta, in whatever order the rows lie |
| Keccak.OffsetsFollowWalk | crypto/sha3/keccakf.go:60-138 | the rotation offsets used are those the walk of FIPS 202, section 3.2.2, gives |
| Keccak.ConstantsFollowRegister | crypto/sha3/keccakf.go:9-34 | all 24 round constants are what the shift register of FIPS 202, section 3.2.5, gives |
| KeccakBits.RotlLit | crypto/sha3/keccakf.go:60-138 | for every lane, every amount n below 64 and every place z, bit (z + n) modulo 64 of the rotated lane is bit z of the lane |
| KeccakBits.RotlNumber | crypto/sha3/keccakf.go:54-58 | rotating by one gives, as a number, twice the lane modulo 2^64 plus its top bit |
| KeccakBits.ThetaLit | crypto/sha3/keccakf.go:49-58 | a bit after theta is the sum of the eleven bits FIPS 202, section 3.2.1, names: itself, the column to its left, and the column to its right one place lower |
| KeccakBits.RhoLit | crypto/sha3/keccakf.go:60-138 | rho moves the bits of the lane reached in step t of the walk up by (t + 1)(t + 2)/2 places (FIPS 202, section 3.2.2), and those of lane (0, 0) not at all |
| KeccakBits.PiMoves | crypto/sha3/keccakf.go:60-138 | lane (x, y) after pi is lane (x + 3y, x) before (FIPS 202, section 3.2.3) |
| KeccakBits.ChiLit | crypto/sha3/keccakf.go:66-70 | a bit after chi is b0 xor (not b1 and b2) of the bit and its two right neighbours (FIPS 202, section 3.2.4) |
| KeccakBits.IotaLit | crypto/sha3/keccakf.go:66-66 | iota adds the round constant to lane (0, 0) and nothing to the others (FIPS 202, section 3.2.5) |
| KeccakBits.FirstParities | crypto/sha3/keccakf.go:54-58 | where only lane 0 is set, to 1, theta adds 1 to column 1, 2 to column 4 and nothing else |
| KeccakBits.TwoRounds | crypto/sha3/keccakf.go:39-229 | all 25 lanes of the zero state after one round and after two |
| Sponge.LaneRoundTrip | crypto/sha3/xor_unaligned.go:48-51 | a lane written as bytes and read back is the same lane |
| Sponge.LaneNumber | crypto/sha3/xor_unaligned.go:12-46 | a lane is the number its eight bytes write, the first least significant |
| Sponge.BytesNumber | crypto/sha3/xor_unaligned.go:48-51 | the bytes a lane is written as write the number it is, the first least significant |
| Sponge.StateByte | crypto/sha3/xor_unaligned.go:48-51 | byte k of a state is byte k modulo 8 of lane k / 8 |
| Sponge.PadShape | crypto/sha3/sha3.go:98-121 | every byte of a padded block: the rest of the message, the domain byte, zeros, and the final bit, the last two merged where there is room for one byte only |
| Sponge.AbsorbPiece | crypto/sha3/sha3.go:132-154 | a piece within a block only waits; a piece that fills it absorbs the block |
| Sponge.OutputIs | crypto/sha3/sha3.go:160-181 | whole blocks and the beginning of the next one are the standard's output of that length |
| Sponge.XorIn | crypto/sha3/xor_unaligned.go:12-46 | the lanes of the block are added to the state, for every rate in use, and no others |
| Sponge.CopyOut | crypto/sha3/xor_unaligned.go:48-51 | the first bytes of the state in the standard's order |
| Sponge.Hasher.Write | crypto/sha3/sha3.go:125-157 | whatever the split into writes, the state is that of the whole message absorbed so far |
| Sponge.Hasher.PadAndPermute | crypto/sha3/sha3.go:98-121 | pads with the suffix and the final bit as in FIPS 202, section 5.1, and makes the first output block ready |
| Sponge.Hasher.Squeeze | crypto/sha3/sha3.go:160-181 | whatever the split into reads, the bytes continue the standard's output of the padded message |
| Sponge.Hasher.Take | crypto/sha3/sha3.go:166-178 | hands out bytes of the block and permutes once it is used up, without a gap |
| Sponge.Hasher.Clone | crypto/sha3/sha3.go:66-75 | a fresh sponge that has absorbed the same message |
| Sponge.Hasher.Sum | crypto/sha3/sha3.go:185-192 | appends the hash of everything written so far and changes nothing in the sponge |
| Sponge.Hasher.Reset | crypto/sha3/sha3.go:57-64 | the sponge has absorbed nothing, whatever it did before |
| Wnaf.EcmultWnaf | crypto/secp256k1/libsecp256k1/src/ecmult_impl.h:235-284 | digits are odd and below 2^(w-1), non-zero ones at least w apart, and with 256 places they stand for the scalar, or the scalar less n when it was negated; all above the count returned are zero |
| Wnaf.DigitStep | crypto/secp256k1/libsecp256k1/src/ecmult_impl.h:257-275 | a digit and the zeros after it recode exactly the bits passed, up to the carry |
| Wnaf.DigitFacts | crypto/secp256k1/libsecp256k1/src/ecmult_impl.h:262-270 | a digit is odd and in range, and only a whole window with its top bit set carries |
| Wnaf.NoCarryLeft | crypto/secp256k1/libsecp256k1/src/ecmult_impl.h:277-282 | the carry is zero at the end, because it would need a bit that is clear |
| Wnaf.FoldedIsLow | crypto/secp256k1/libsecp256k1/src/ecmult_impl.h:249-252 | negating a scalar with bit 255 set leaves fewer than 256 bits |
| Wnaf.SkewedFacts | crypto/secp256k1/libsecp256k1/src/ecmult_const_impl.h:78-93 | for every scalar, zero and n - 1 included, skewing gives an odd positive number, and undoing it gives the scalar back modulo n |
| Wnaf.Skew | crypto/secp256k1/libsecp256k1/src/ecmult_const_impl.h:78-93 | the skewed number, its sign and the skew |
| Wnaf.PendingStep | crypto/secp256k1/libsecp256k1/src/ecmult_const_impl.h:101-112 | one turn of the loop keeps digits written, digit in hand and rest adding up to the number |
| Wnaf.NextDigit | crypto/secp256k1/libsecp256k1/src/ecmult_const_impl.h:101-112 | the digit written is odd, non-zero and below 2^w, and so is the next one in hand |
| Wnaf.WnafConst | crypto/secp256k1/libsecp256k1/src/ecmult_const_impl.h:57-119 | for every scalar all digits are odd and below 2^w, and they stand for the scalar plus the skew, or that less n |
| Ecmult.MultSum | crypto/secp256k1/libsecp256k1/src/ecmult_impl.h:367-399 | multiples of a point add up like their factors, negative ones included |
| Ecmult.MultOrder | crypto/secp256k1/libsecp256k1/src/ecmult_const_impl.h:166-236 | whole multiples of the order do not matter |
| Ecmult.OddMultiplesTable | crypto/secp256k1/libsecp256k1/src/ecmult_impl.h:52-81 | the table holds the odd multiples of the point |
| Ecmult.TableGet | crypto/secp256k1/libsecp256k1/src/ecmult_impl.h:134-143 | the entry for an odd digit is that multiple of the point, negated for a negative digit |
| Ecmult.EcmultLoop | crypto/secp256k1/libsecp256k1/src/ecmult_impl.h:367-399 | one doubling per bit for both scalars: the numbers the digits stand for, times the two points |
| Ecmult.Ecmult | crypto/secp256k1/libsecp256k1/src/ecmult_impl.h:286-404 | na * A + ng * G for every pair of scalars and window sizes |
| Ecmult.EcmultConst | crypto/secp256k1/libsecp256k1/src/ecmult_const_impl.h:122-239 | q * A for every scalar, from odd digits with the skew taken off at the end |
| Der.SignatureIff | crypto/secp256k1/libsecp256k1/src/ecdsa_impl.h:147-201 | the strict parser accepts a byte string as a pair of scalars exactly when the serializer writes it for them |
| Der.SignatureRoundTrip | crypto/secp256k1/libsecp256k1/src/ecdsa_impl.h:179-201 | what was serialized parses to the same pair, in at most 72 bytes |
| Der.SignatureIsCanonical | crypto/secp256k1/libsecp256k1/src/ecdsa_impl.h:147-177 | an accepted input with both integers below n is byte for byte what the serializer writes |
| Der.ContentUnique | crypto/secp256k1/libsecp256k1/src/ecdsa_impl.h:101-145 | a scalar has one minimal content, at most 33 bytes |
| Der.ContentFacts | crypto/secp256k1/libsecp256k1/src/ecdsa_impl.h:179-201 | the content written is minimal, positive and holds the scalar |
| Der.IntegerRoundTrip | crypto/secp256k1/libsecp256k1/src/ecdsa_impl.h:101-145 | a written integer is read back, whatever follows it |
| Der.KnownSignature | crypto/secp256k1/libsecp256k1/src/ecdsa_impl.h:179-201 | what is written for the scalars 1 and 128, byte for byte |
| DerParsers.ReadLen | crypto/secp256k1/libsecp256k1/src/ecdsa_impl.h:49-99 | short and long lengths, the indefinite, reserved, padded, oversized and needlessly long ones refused; the cursor stays inside the buffer |
| DerParsers.ParseInteger | crypto/secp256k1/libsecp256k1/src/ecdsa_impl.h:101-145 | accepts exactly well-formed integers; negative ones and those that overflow become zero |
| DerParsers.SigParse | crypto/secp256k1/libsecp256k1/src/ecdsa_impl.h:147-177 | accepts exactly a sequence of two integers from end to end |
| DerParsers.SigSerialize | crypto/secp256k1/libsecp256k1/src/ecdsa_impl.h:179-201 | writes the encoding if there is room, reports the size either way, and touches nothing when there is not |
| DerParsers.LaxReadLen | crypto/secp256k1/libsecp256k1/contrib/lax_der_parsing.c:47-75 | lengths with leading zeros allowed, too long ones refused |
| DerParsers.LaxReadInteger | crypto/secp256k1/libsecp256k1/contrib/lax_der_parsing.c:41-77 | where an integer's content lies and what follows it |
| DerParsers.SigParseLax | crypto/secp256k1/libsecp256k1/contrib/lax_der_parsing.c:12-149 | the lax reader's pair; both zero when an integer is too large |
| DerParsers.LaxAgrees | crypto/secp256k1/libsecp256k1/contrib/lax_der_parsing.c:12-149 | on every input the strict parser accepts with both integers below n, the lax parser gives the same pair |
| Ledger.SortDescSorts | core/state/statedb.go:1517-1519 | sorting by a key in descending order is a permutation in that order |
| StateDb.StateDB.AddBalance | core/state/statedb.go:236-241 | one account's holding of one coin grows, nothing else changes |
| StateDb.StateDB.SubCoinReserve | core/state/statedb.go:904-913 | one custom coin's reserve shrinks; base coin and unknown coins are ignored |
| StateDb.StateDB.AddFund | core/state/state_frozen_fund.go:73-86 | the list frozen until a height grows by one entry |
| Conversion.TotalSpends.Add | core/transaction/transaction.go:77-89 | entries stay one per coin, and the sum recorded for each coin grows by exactly what was added |
| Conversion.EntryIsAll | core/transaction/transaction.go:77-89 | the entry of a coin is all that is spent of it, so one balance check per entry is enough |
| Conversion.ConvertAllCoins | core/transaction/sell_coin.go:299-306 | conversions change a coin's volume and reserve by what they state for that coin, nothing else of it and no other coin |
| Conversion.SettledConserves | core/transaction/sell_coin.go:295-310 | settling a balanced list of spends and conversions conserves base coin up to what is stated as lost, and every custom coin's gap |
| Conversion.SettledNoDebts | core/transaction/sell_coin.go:284-298 | checked entries leave no account below zero |
| Transactions.GasAfterTrade | core/transaction/sell_coin.go:90-113 | the gas coin's volume and reserve after the trade, on which its price is taken |
| Transactions.TradeBalances | core/transaction/sell_coin.go:22-232 | a list of spends and conversions balances when its base coin does |
| Transactions.SendSpend | core/transaction/send.go:21-52 | fails exactly when the gas coin's reserve is short; otherwise spends value and commission, draws the commission from that reserve and nothing from any other, and balances |
| Transactions.SellSpend | core/transaction/sell_coin.go:22-232 | succeeds exactly when the minimum, the supply limit and the gas reserve allow, with the right error otherwise; the sheet balances, and of all reserves the sold coin's gives up the base coin moved, the bought coin's receives it and the gas coin's gives up the commission |
| Transactions.SellAllSpend | core/transaction/sell_all_coin.go:21-132 | the same for selling a whole balance with the commission inside it, which the sold coin's reserve gives up too, also when the balance does not cover the commission and the curve is asked for a negative amount |
| Transactions.BuySpend | core/transaction/buy_coin.go:32-241 | the same for buying; what the bought coin's reserve does not receive before the upgrade is stated |
| RunTx.CheckFunds | core/transaction/sell_coin.go:284-293 | passes exactly when every entry is covered |
| RunTx.BasicCheck | core/transaction/sell_coin.go:234-260 | which transactions are refused before pricing, and with which code |
| RunTx.Spend | core/transaction/sell_coin.go:279-282 | one contract for the four kinds: priced exactly when the curves allow, balanced, and spending what is given |
| RunTx.SettledCoin | core/transaction/sell_coin.go:299-306 | volume and reserve of every coin after a settlement: what is given and got moves volumes, the base coin moved and the commission move reserves, and nothing else changes |
| RunTx.FundedIff | core/transaction/transaction.go:77-89 | with no debts, checking the merged entries is checking that the sender can pay trade and commission together |
| RunTx.Run | core/transaction/executor.go:144-182 | succeeds exactly when the conditions a sender can check hold; then each balance changes by exactly what was given and received, each coin's volume and reserve by exactly the amounts stated, no other coin, and base coin is conserved but for what is stated as lost; otherwise, or in a check, nothing changes; no balance becomes negative |
| RunTx.RunAll | core/transaction/executor.go:37-182 | any sequence of delivered transactions from the upgrade on conserves base coin and every custom coin's gap and leaves no debts |
| RunTx.LeakIff | core/transaction/buy_coin.go:194-195 | base coin is conserved unless, before the upgrade, a custom coin pays for another custom coin and for the gas and moves any base coin: exactly then it is not |
| RunTx.EarlyBuyLoses | core/transaction/buy_coin.go:194-195 | a purchase at height 1 that is accepted and after which there is less base coin, whatever the balances are written as |
| Trades.SendIs | core/transaction/send.go:21-119 | a transfer in terms of the curves: exactly when it is accepted, and every balance, volume and reserve after it |
| Trades.SellIs | core/transaction/sell_coin.go:22-325 | a sale in terms of the curves, for every gas coin: exactly when it is accepted, and every balance, volume and reserve after it |
| Trades.SellAllIs | core/transaction/sell_all_coin.go:21-226 | the same for selling everything, where the commission comes out of the yield |
| Trades.BuyIs | core/transaction/buy_coin.go:32-321 | the same for a purchase, where a custom coin that is sold pays for the gas together with the purchase, and with what is lost before the upgrade |
| Trades.PlainSale | core/transaction/sell_coin.go:193-200 | a sale that is accepted and after which one base coin has left one reserve of 10^18 for another |
| Liquidation.SaleReturnBounds | formula/formula.go:73-89 | no sale at full reserve ratio takes more than the reserve; selling the whole supply takes all of it |
| Liquidation.RichAfterSale | formula/formula.go:73-89 | rounding down leaves at least as much reserve per unit, so a later holder gets at least its share of the beginning |
| Liquidation.LiquidateAccount | core/state/statedb.go:1698-1714 | an account's holding is sold to the reserve and paid in base coin |
| Liquidation.LiquidateFund | core/state/statedb.go:1722-1740 | a frozen fund in the coin becomes one in base coin, for the same owner and candidate, worth at least its share of the reserve |
| Liquidation.LiquidateFunds | core/state/statedb.go:1716-1746 | every entry frozen until a height is paid out, the other heights are untouched |
| Liquidation.FairIsPaid | core/state/statedb.go:1716-1746 | each owner then has frozen in base coin at least what it had and the shares of what was frozen for it in the coin |
| Liquidation.LiquidateStake | core/state/statedb.go:1753-1769 | a stake is paid out, merged into the owner's base stake if there is one |
| Liquidation.PaidStakeDue | core/state/statedb.go:1753-1769 | a stake paid at least its share leaves no owner with less than its due, whether it is merged into a base stake or becomes one |
| Liquidation.LiquidateStakes | core/state/statedb.go:1748-1773 | nothing of the coin stays staked, and every owner has staked in base coin at least what it had and the shares of its stakes in the coin, merged or not |
| Liquidation.DeleteCoin | core/state/statedb.go:1651-1778 | with the volume accounted for and the work lists reaching every holding, however often: every holding becomes base coin, volume ends at zero and so does the reserve if there was any volume, base coin as a whole is conserved so the payouts are the initial reserve exactly, and every account, every owner of frozen funds at each height and every owner of stakes with each candidate has at least what it had and its shares, rounded down, of the reserve at the beginning |
| Liquidation.AbandonedAccounted | core/state/statedb.go:1651-1656 | a coin of which nothing is held, but with a reserve, meets every condition for being deleted |
| Liquidation.DeleteAbandoned | core/state/statedb.go:1651-1778 | deleting it leaves its reserve of five where it is: the reserve is paid out exactly when there is volume |
| Staking.AddToStake | core/state/statedb.go:1092-1114 | an existing stake of owner and coin grows, or one is appended |
| Staking.Delegate | core/state/statedb.go:1089-1119 | only the candidate with the key changes |
| Staking.SubStake | core/state/statedb.go:1121-1134 | only the candidate with the key changes, by the value taken |
| Staking.DelegateKeeps | core/state/statedb.go:1089-1119 | delegating keeps every validator backed and puts exactly the value into the stakes |
| Staking.SubStakeKeeps | core/state/statedb.go:1121-1134 | unbonding keeps every validator backed and takes exactly the value out |
| Owners.DelegatedFor | core/state/statedb.go:1089-1119 | a delegation adds to what the sender has staked in the coin and to nothing else of anyone |
| Owners.UnbondedFor | core/state/statedb.go:1121-1134 | unbonding takes from what the sender has staked in the coin and from nothing else of anyone |
| Staking.SoundIfNoMore | core/state/statedb.go:960-1056 | base values that do not grow keep every validator's total above the sum it is divided by |
| Slashing.Slash | core/state/statedb.go:1262-1282 | one holding is cut to its percentage, and what is cut is sold to the coin's reserve and slashed |
| Slashing.SlashAllFacts | core/state/statedb.go:1262-1296 | what a penalty takes of each coin is what its volume, or base coin, gives up |
| Slashing.SlashAllCuts | core/state/statedb.go:1262-1282 | every coin's volume and reserve after a penalty, what is cut off each stake in it having been sold to it in order, and what is slashed: the base coin cut off and what reserves gave up |
| Slashing.SlashStakes | core/state/statedb.go:1260-1298 | all stakes of a candidate are cut in order and lose their base value; the total returned is what is left |
| Slashing.RecordAbsence | core/state/statedb.go:1249-1303 | the window of 24 is marked at the height; when more than 12 are missing, each stake keeps its owner, its coin and value * 99 / 100 and loses its base value, what is cut off is sold and slashed, the candidate goes offline, and the validator is to leave with the sum as its total; nothing else changes |
| Slashing.CountIs | core/state/state_validator.go:39-49 | how many of the heights in the window are missing |
| Slashing.ThirteenthAbsence | core/state/statedb.go:1251-1299 | a stake of 1000 after a vote missed beyond twelve: 990 are left and 10 slashed |
| Slashing.SetValidatorPresent | core/state/statedb.go:1215-1225 | only the present height is cleared, only for that validator |
| Slashing.SetValidatorAbsent | core/state/statedb.go:1227-1309 | exactly that for the validator with the key and nothing for others; every validator stays backed and every coin conserved |
| Slashing.PenaltySound | core/state/statedb.go:1286-1299 | a penalized candidate's stakes have no base value, so its validator stays backed |
| Slashing.SlashIntoFunds | core/state/statedb.go:1331-1361 | what a penalty leaves of the stakes is frozen for their owners, the rest slashed |
| Slashing.PunishByzantineValidator | core/state/statedb.go:1311-1375 | value * 95 / 100 of each stake is frozen for its owner until 518400 blocks later, what is cut off is sold and slashed, and the candidate ends without stakes and offline, its validator with a total of zero and to leave; nothing else changes; every validator stays backed and every coin conserved |
| FundPenalty.SlashListFacts | core/state/state_frozen_fund.go:93-149 | what a penalty takes from frozen funds in a coin is what its volume, or base coin, gives up |
| FundPenalty.SlashListCuts | core/state/state_frozen_fund.go:93-149 | every coin's volume and reserve after a penalty on frozen funds, and what is slashed |
| FundPenalty.PunishFund | core/state/state_frozen_fund.go:93-149 | the candidate's entries of a list lose their part in order, the others nothing |
| FundPenalty.PunishedFromFacts | core/state/statedb.go:1377-1387 | over any range of heights each fund of the candidate is penalized once, the others not, and every coin is conserved |
| FundPenalty.PunishFrozenFunds | core/state/statedb.go:1377-1387 | every fund of the candidate frozen until one of the heights keeps owner, coin and value * 95 / 100, every other fund stays as it was, and what is cut off is sold and slashed in order |
| Elections.CalcBipValue | core/state/state_candidate.go:84-123 | a stake's base value from the return of all stakes in its coin, computed once and cached |
| Elections.RevalueStakes | core/state/statedb.go:1063-1070 | every stake of a candidate gets its base value and the sum is returned |
| Elections.RecalculateTotalStakeValues | core/state/statedb.go:1058-1087 | each stake's base value is itself for base coin and otherwise its part, rounded down, of the return of all stakes in its coin sold together; candidates' totals and their validators' totals become the sums; nothing else changes |
| Elections.AllBaseValued | core/state/state_candidate.go:84-123 | the base values computed through the cache are those |
| Elections.RecalculationKeeps | core/state/statedb.go:1058-1087 | recalculation leaves every validator backed by exactly its candidate's sum, accruals and stakes untouched |
| Elections.BipsWithinReturn | core/state/state_candidate.go:84-123 | all base values in one coin add up to at most the return of its stakes sold together |
| ValidatorSet.ClearCandidates | core/state/statedb.go:1511-1535 | the candidates with the largest totals stay, the stakes of the others are frozen for the unbonding period |
| ValidatorSet.ClearCandidatesConserves | core/state/statedb.go:1511-1535 | which loses no coin |
| ValidatorSet.ClearCandidatesWealth | core/state/statedb.go:1511-1535 | nobody becomes richer or poorer by it: what an account had staked with dropped candidates is frozen for that account |
| ValidatorSet.SortedKeepsLargest | core/state/statedb.go:1517-1531 | none of the candidates dropped has a larger total than one kept |
| ValidatorSet.KeptStakesFacts | core/state/statedb.go:1537-1565 | at most a thousand stakes stay, none smaller than one returned, and the two together are the stakes there were |
| ValidatorSet.ClearStakes | core/state/statedb.go:1537-1565 | the stakes beyond the thousandth go back to their owners' balances |
| ValidatorSet.ClearStakesWealth | core/state/statedb.go:1537-1565 | nobody becomes richer or poorer by it: what is no longer staked is in its owner's balance |
| ValidatorSet.CappedIs | core/state/statedb.go:1537-1565 | of more than a thousand stakes exactly a thousand stay, none smaller by base value than one that goes |
| ValidatorSet.GetCandidates | core/state/statedb.go:915-946 | a descending list of the largest online candidates, whatever order ties were left in |
| ValidatorSet.SetNewValidators | core/state/statedb.go:1389-1418 | a candidate that was a validator keeps its accrual and absences, a new one starts afresh |
| ValidatorSet.ElectedSeats | core/state/statedb.go:1389-1418 | a new seat has its candidate's data, what the validator with its key had accrued and missed, and nothing accrued or missed if there was none |
| ValidatorSet.CountIs | core/validators/validators.go:5-18 | sixteen seats, four more every 518400 blocks, and 256 at most |
| ValidatorSet.ElectedAccrual | core/state/statedb.go:1389-1418 | the new validators carry all accruals but those of validators that leave |
| ValidatorSet.LeavingNothing | core/state/statedb.go:1389-1418 | nothing leaves exactly when every validator with an accrual is elected again |
| ValidatorSet.ElectedOnline | core/state/statedb.go:915-946 | through recalculation and both caps, whoever is elected was an online candidate to begin with |
| ValidatorSet.SeatsOfLargest | core/minter/minter.go:292-309 | taking the largest online candidates and dropping those without a positive total leaves no fit candidate without a seat unless every seat has a total at least as large |
| ValidatorSet.SeatFor | core/minter/minter.go:292-309 | whoever is fit and not outdone by every seat is elected, and whoever is elected is fit |
| ValidatorSet.ElectedSound | core/state/statedb.go:1389-1418 | validators elected from recalculated candidates are backed |
| ValidatorSet.UpdateValidators | core/minter/minter.go:285-331 | candidates get their base values, the largest stay with their largest stakes, and the seats go to the largest of them, all of them online before; nobody's wealth in any coin changes and funds are added only 518400 blocks ahead; the stake invariant is re-established within the size limits; exactly the accruals of validators that are not elected again are lost |
| Payout.RewardsScaled | core/state/statedb.go:1017-1034 | rewards of stakes within the total never come to more than the pot |
| Payout.RemainderNotNegative | core/state/statedb.go:1000-1050 | for a backed validator no division is by zero, no reward negative, and a remainder of at least zero is left |
| Payout.PayStakes | core/state/statedb.go:1014-1042 | each account is credited, in base coin, the rounded-down parts of the pot its own stakes have by base value, and nobody anything else; the remainder is what was due less the parts |
| Payout.PayRewards | core/state/statedb.go:960-1056 | of every accrual each account gets, in base coin and nothing else: a tenth if it is one of the two funds, the commission on the rest if it is the reward address, and the rounded-down parts its own stakes have of what is left; what is not paid is slashed, accruals are gone, and the stake invariant stays |
| Payout.PaidAllFacts | core/state/statedb.go:960-1056 | the same after the first n validators have been paid |
| Payout.ThousandPaid | core/state/statedb.go:960-1056 | a thousand accrued at ten percent commission: 100 for each fund, 80 for the reward address and 720 for the one delegator |
| Blocks.SharesWithin | core/minter/minter.go:257-272 | the floored shares of any validators never exceed the reward |
| Blocks.ReturnDropped | core/minter/minter.go:226-236 | only the first validator to be dropped returns its accrual to the pool |
| Blocks.TotalPower | core/minter/minter.go:238-251 | the power of the validators that signed, one if there is none |
| Blocks.ShareOut | core/minter/minter.go:257-272 | each validator that signed gains its floored share; the remainder is the reward less all shares |
| Blocks.AccrueRewards | core/minter/minter.go:226-278 | the reward, the pool and the accrual of the first validator to be dropped are divided by stake among those kept that signed, rounded down, and the rest is slashed; and whether a validator is to be dropped |
| Blocks.AccruedIs | core/minter/minter.go:226-278 | every validator's accrual afterwards, as reward times stake over the power that signed |
| Blocks.AccrualKeeps | core/minter/minter.go:226-278 | accruals and slashed coin together grow by exactly the reward and the pool, nothing is negative and every validator stays backed |
| Emission.Schedule.SetStartHeight | core/rewards/rewards.go:37-43 | the rewards of the heights skipped are added up |
| Emission.ClosedForm | core/rewards/rewards.go:16-35 | the rewards of the first n blocks in closed form |
| Emission.EmissionCap | cmd/make_genesis/main.go:255-256 | from block 43702611 on, the emission and the genesis coins are ten billion exactly |
| Emission.RewardBounds | core/rewards/rewards.go:16-35 | rewards never sink to the schedule's floor before the last block |
| Emission.EmittedSince | core/rewards/rewards.go:9-43 | for every start height the total counted depends only on the absolute height, by the closed form below the last block and the cap from it on |
| StakeTx.CheckAct | core/transaction/delegate.go:26-60 | passes exactly the staking transactions that are allowed |
| StakeTx.AllowedIff | core/transaction/unbond.go:26-74 | which transactions those are, told of the one candidate with the key and the first stake of the sender in the coin |
| StakeTx.CheckPayable | core/transaction/delegate.go:94-116 | passes exactly when the sender can pay the stake and the commission, together where they are in one coin |
| StakeTx.StakeCoinKnown | core/transaction/delegate.go:94-116 | whoever can pay a stake pays it in a coin there is |
| StakeTx.DeclareKeeps | core/transaction/declare_candidacy.go:74-153 | a new candidate backs nobody, so the stake invariant stays |
| StakeTx.ActedAmounts | core/transaction/unbond.go:76-131 | what was charged is what stakes and frozen funds gain, and validators stay backed |
| StakeTx.ActedFor | core/transaction/unbond.go:76-131 | what each account has staked and frozen changes by what it stakes, and nobody else's |
| StakeTx.RunStaking | core/transaction/delegate.go:71-141 | declaring, delegating and unbonding succeed exactly when allowed and payable, whatever coin they name; then the sender pays the commission at the gas coin's price and its stake, the gas coin's volume and reserve give up as much, nobody's wealth changes but by that and by a declared stake, which is the reward address's; every coin is conserved, the stake invariant kept and no debt left; refused, they change nothing |
| Chain.SetCandidateOffline | core/state/statedb.go:1193-1213 | the candidate goes offline and its validator is to be dropped; nothing else changes |
| Marks.DroppedByVotesIff | core/state/statedb.go:1227-1309 | votes drop a validator exactly when one of them is missing while its candidate is online and this height makes more than twelve absences |
| Marks.SignedVote | core/state/statedb.go:1215-1225 | a signature drops nobody and changes no other absence |
| Marks.MissingVote | core/state/statedb.go:1249-1303 | a missing vote marks its validator exactly then, and takes its candidate offline with it |
| Marks.Evidence | core/minter/minter.go:183-195 | evidence marks the validator of an online candidate and nobody else |
| Marks.Switched | core/state/statedb.go:1179-1213 | switching off marks the validator; a validator marked stays offline until switched on |
| Departures.LeftIff | core/minter/minter.go:226-331 | accruals are lost exactly when it is no payout block, somebody has to leave, and somebody with an accrual is not elected again |
| Departures.ElectedAgainIf | core/minter/minter.go:292-331 | told from the recalculated candidates: accruals are all kept when each belongs to a candidate large enough, and only when each belongs to one that is online with a positive total |
| Departures.AccruedSeat | core/minter/minter.go:227-272 | of the validators marked only the first returns its accrual; the others keep theirs and gain no share |
| Departures.DroppedLoses | core/minter/minter.go:226-331 | a marked validator other than the first takes its accrual with it unless it is elected again |
| Chain.ReleaseFunds | core/minter/minter.go:196-212 | each account gets exactly what is frozen for it until this height, coin by coin, and the funds are gone; nobody's wealth changes |
| Chain.ReleasedIs | core/minter/minter.go:196-212 | the credits owner by owner come to that |
| Chain.BeginBlock | core/minter/minter.go:143-215 | votes in order, evidence in order with its penalties on frozen funds and then on stakes, and releases, each with exactly its effect; the stake invariant and every coin are kept; the last vote of a validator decides whether it was present, and exactly those absent once too often or accused while online are marked to leave |
| Chain.Deliver | core/minter/minter.go:380-397 | a transfer or trade, a staking transaction and a switch each have exactly the effect stated for them, or none when refused; coins are conserved and the stake invariant kept |
| Chain.EndBlock | core/minter/minter.go:218-331 | the accrual, every 12th block the payout, and every 120th or when a validator leaves the election, each with exactly its effect; the supply outside the pool grows by the reward less exactly the accruals that leave; coins are untouched, and when there is an election only candidates online before it are elected |
| Chain.ForgottenCoins | core/state/statedb.go:714-725 | the ledger without its empty coins lacks their reserves and nothing else |
| Chain.RemovedUnheld | core/state/statedb.go:714-725 | when nothing is owned of a removed coin, no balance or stake mentions it and a frozen fund only if it is of nothing |
| Chain.Commit | core/state/statedb.go:702-769 | exactly the stakes of nothing and the coins without volume go, and nobody's wealth changes; what is lost is exactly those coins' reserves; if nothing of them is owned, only frozen funds of nothing can still mention them |
| Chain.CommittedIs | core/state/statedb.go:702-769 | stakes of nothing and coins without volume were worth nothing to anyone |
| Chain.RunBlock | core/minter/minter.go:143-449 | a block without the liquidation check that follows a transaction, whatever else it brings, is its votes, evidence, releases, transactions, rewards, election and commit, one after the other; with that: which validators are marked, that the seats go to the largest candidates, the gap of every coin that remains, and the supply grown by the reward less the accruals and reserves lost, both given by the books after the transactions |
| Runs.BlockMarks | core/minter/minter.go:143-235 | whether a validator is marked when the transactions are done, told from the books the block starts with |
| Runs.SupplyIff | core/minter/minter.go:226-331 | but for reserves of removed coins, the supply grows by the whole block reward if and only if it is a payout block, or the block makes nobody leave, or everyone with an accrual is elected again |
| Runs.WholeSupplyIff | core/minter/minter.go:226-331 | with no negative reserve among removed coins, the supply grows by at most the block reward, and by all of it if and only if accruals are kept and every removed coin has no reserve left |
| Runs.LaterOneLoses | core/minter/minter.go:226-235 | of any two validators a block makes leave, the later one takes its accrual out of the supply unless its candidate is switched on again |
| Runs.FewAbsences | core/state/statedb.go:1253-1256 | a validator short of twelve absences is not made to leave by any votes |
| Runs.LosingBlock | core/minter/minter.go:226-235 | a block that does lose: two validators switched off between payouts, and the supply is short by the second accrual however the block runs |
| Runs.GasAccepted | core/transaction/send.go:21-52 | a send is accepted that pays for its gas with all there is of a coin |
| Runs.GasTakesAll | core/transaction/send.go:79-119 | whatever books follow it, nothing is left of the coin and seven of its reserve |
| Runs.RemovalLosesReserve | core/state/statedb.go:714-725 | a commit that does lose: after the transaction above the coin is removed and the supply is short by the seven left of its reserve |
| Runs.RunIff | core/minter/minter.go:143-449 | over a run no accrual is lost if and only if each of its blocks keeps them |
| Runs.RunBlocks | core/state/statedb.go:1973-2130 | any run of blocks from the upgrade on, liquidation apart, each of them as stated for one block: the supply is what it was plus the emission schedule, less exactly the accruals and reserves lost block by block; every custom coin that remains keeps the gap between volume and holdings, the seats go to the largest candidates, and the stake invariant holds throughout |
| AccountCache.RecordUnique | core/state/state_object.go:57-66 | what is stored of an account does not depend on the order its coins are walked in |
| AccountCache.DecodeRecord | core/state/state_object.go:68-85 | a stored account is read back without its empty entries; balances answer the same |
| AccountCache.GetCoins | core/state/state_object.go:42-55 | exactly the coins with a positive balance, in descending order |
| AccountCache.Encode | core/state/state_object.go:57-66 | the record lists exactly the positive balances and the nonce |
| AccountCache.AccountDB.GetStateAccount | core/state/statedb.go:458-481 | a live account is preferred, otherwise it is loaded; the accounts seen do not change |
| AccountCache.AccountDB.GetOrNewStateObject | core/state/statedb.go:538-544 | an account there is, or a new one, which is dirty at once |
| AccountCache.AccountDB.Store | core/state/state_object.go:171-206 | the callback fires at most once and afterwards the account is in the dirty set |
| AccountCache.AccountDB.GetBalance | core/state/statedb.go:203-209 | answers as the plain map |
| AccountCache.AccountDB.AddBalance | core/state/statedb.go:236-241 | changes one balance of the plain map |
| AccountCache.AccountDB.SetNonce | core/state/statedb.go:258-263 | changes one nonce of the plain map |
| AccountCache.WritesAnswer | core/state/state_object.go:151-206 | what each write changes of what reads answer, and nothing else |
| AccountCache.SettledAnswers | core/state/state_object.go:42-66 | a commit cannot be told from its answers exactly when no dirty account had a negative balance |
| AccountCache.DebtIsForgotten | core/state/state_object.go:42-66 | an account on which a commit does show: its debt is read as nothing afterwards |
| AccountCache.AccountDB.Commit | core/state/statedb.go:702-769 | the tree afterwards decodes to all accounts, nothing is live or dirty |
| AccountCache.Run | core/state/statedb.go:203-263 | for any interleaving of reads, writes and commits with balances kept non-negative, every read answers as plain maps of balances and nonces would |

## Left out

- Ecmult.Ecmult: points are elements of an abstract group, so point formulas, coordinates and their exceptional cases are not modelled, nor the endomorphism build and the precomputed generator table's storage.
- Wnaf.EcmultWnaf: scalars are numbers, not limbs, so extracting bits from limbs and constant-time selection are not modelled.
- GfpTower.GfP12.Exp: exponents are natural numbers.
- GfpTower.GfP12.Invert: that the norm meets Fermat's little theorem is a condition, because primality of p is not proved; the same goes for the other inverses.
- GfpTower.GfP6.Mul: base field values stand in for their Montgomery words, and coordinates are integers.
- Sponge.Hasher.Clone: only cloning while absorbing; the buffer is a value rather than a slice of the sponge's own storage.
- RlpDecoder.Stream.DecodeInterface: contract states its results for a reader whose budget is covered by the input, as for byte slices; for other readers only the frame invariants are proved.
- RlpEncoder.EncBuf.WriteItem: values are untyped items; reflection, the type cache, and struct, pointer and tag rules are not modelled.
- RlpRaw.CountValues: SplitString, SplitList and ListSize are one-step wrappers and not modelled.
- RlpEncoder.EncReader.Read: pieces that share the header buffer are values.
- DerParsers.ReadLen: lengths are unbounded integers, which C narrows to int.
- AccountCache.AccountDB.Commit: live accounts are values in a map rather than shared objects, the tree is a map, and coins, funds and candidates have no cache of their own in the model.
- Slashing.SetValidatorAbsent: coins are not checked for liquidation part-way through the slashing loop, nor are they in PunishByzantineValidator and the fund penalty.
- RunTx.Run: decoding, signatures, multisignatures, chain, size and gas price checks, the mempool and the liquidation check after a transaction are not modelled; the sender is an input.
- StakeTx.RunStaking: whether a stake is large enough for a full candidate is an input, and candidate ownership is not modelled.
- Runs.RunBlocks: liquidation is not part of a run; a run is followed up to the first commit that removes a coin some account, stake or frozen fund still mentions, where the code goes on to look up a coin that is not there.
- Chain.Commit: a coin with no volume counts as touched in the block, as every commit leaves none behind.
- Chain.RunBlock: the liquidation check after a transaction is not part of a block, because deleting a coin needs a volume that is what is held and a reserve that is not negative, which arbitrary curves do not keep; switching a candidate on or off is modelled without its commission, Tendermint addresses are identified with public keys, and validator updates sent to Tendermint are not modelled.
- Liquidation.DeleteCoin: assumes the volume on record is what is held, as the supply check of the ledger demands; the work lists are inputs, and funds released earlier in the same block are not among them.
- Emission.Schedule.SetStartHeight: heights are unbounded integers.
- Floating-point pricing and its rounding.
- Other transaction types (multisend, checks, creating coins, editing candidates, multisignature accounts): the same pattern as sending.
- The IAVL tree, LevelDB, Tendermint, events, logging, the API and configuration.
- Frobenius maps, the Miller loop and final exponentiation, curve groups, and the second copy of bn256.
- Signature creation, verification and recovery.
